/**
 * The few pieces of java.lang.String and java.lang.Integer that the plugin's
 * parsing and normalisation code relies on, over Dafny strings.
 *
 * Case mapping (`toLowerCase(Locale.ROOT)`, `toUpperCase(Locale.ROOT)`,
 * `equalsIgnoreCase`) and digit recognition are modelled for ASCII only.
 */
module JavaText {

  /** A Java reference that may be null. */
  datatype Option<T> = None | Some(value: T)

  // ---------------------------------------------------------------------------
  // Whitespace: String.trim, String.isBlank, String.stripLeading
  // ---------------------------------------------------------------------------

  /** Character.isWhitespace: Unicode space separators except the no-break ones,
      line and paragraph separators, and the ASCII controls U+0009..U+000D, U+001C..U+001F. */
  predicate IsWhitespace(c: char)
  {
    var n := c as int;
    n == 0x20 || 0x09 <= n <= 0x0D || 0x1C <= n <= 0x1F || n == 0x1680
    || (0x2000 <= n <= 0x200A && n != 0x2007)
    || n == 0x2028 || n == 0x2029 || n == 0x205F || n == 0x3000
  }

  /** String.isBlank: empty or only Character.isWhitespace characters. */
  predicate IsBlank(s: string)
  {
    forall i :: 0 <= i < |s| ==> IsWhitespace(s[i])
  }

  /** What String.trim removes: every character at or below U+0020. */
  predicate IsTrimmed(c: char)
  {
    c as int <= 0x20
  }

  /** Drops the leading characters at or below U+0020. */
  function TrimStart(s: string): (r: string)
    ensures |r| <= |s|
  {
    if s != [] && IsTrimmed(s[0]) then TrimStart(s[1..]) else s
  }

  /** Drops the trailing characters at or below U+0020. */
  function TrimEnd(s: string): (r: string)
    ensures |r| <= |s|
  {
    if s != [] && IsTrimmed(s[|s| - 1]) then TrimEnd(s[..|s| - 1]) else s
  }

  /** TrimStart keeps a suffix that starts above U+0020, after only trimmed characters. */
  lemma {:induction false} TrimStartShape(s: string)
    ensures var r := TrimStart(s);
            r == s[|s| - |r|..] && (r == [] || !IsTrimmed(r[0])) &&
            forall i :: 0 <= i < |s| - |r| ==> IsTrimmed(s[i])
  {
    if s != [] && IsTrimmed(s[0]) {
      TrimStartShape(s[1..]);
    }
  }

  /** TrimEnd keeps a prefix that ends above U+0020, before only trimmed characters. */
  lemma {:induction false} TrimEndShape(s: string)
    ensures var r := TrimEnd(s);
            r == s[..|r|] && (r == [] || !IsTrimmed(r[|r| - 1])) &&
            forall i :: |r| <= i < |s| ==> IsTrimmed(s[i])
  {
    if s != [] && IsTrimmed(s[|s| - 1]) {
      TrimEndShape(s[..|s| - 1]);
    }
  }

  /** String.trim: drops the characters at or below U+0020 from both ends. */
  function Trim(s: string): (r: string)
    ensures |r| <= |s|
  {
    TrimEnd(TrimStart(s))
  }

  /** Trim yields the longest infix whose first and last characters are above U+0020. */
  lemma TrimShape(s: string)
    ensures var r, start := Trim(s), |s| - |TrimStart(s)|;
            start + |r| <= |s| && r == s[start..start + |r|] &&
            (r == [] || (!IsTrimmed(r[0]) && !IsTrimmed(r[|r| - 1]))) &&
            (forall i :: 0 <= i < start ==> IsTrimmed(s[i])) &&
            (forall i :: start + |r| <= i < |s| ==> IsTrimmed(s[i]))
  {
    var t := TrimStart(s);
    var r := TrimEnd(t);
    TrimStartShape(s);
    TrimEndShape(t);
    assert r == s[|s| - |t|..|s| - |t| + |r|];
    forall i | |s| - |t| + |r| <= i < |s|
      ensures IsTrimmed(s[i])
    {
      assert s[i] == t[i - (|s| - |t|)];
    }
  }

  lemma TrimIdempotent(s: string)
    ensures Trim(Trim(s)) == Trim(s)
  {
    TrimShape(s);
    TrimOfTrimmedForm(Trim(s));
  }

  /** A text with no trimmed character at either end. */
  predicate TrimmedForm(t: string)
  {
    t == [] || (!IsTrimmed(t[0]) && !IsTrimmed(t[|t| - 1]))
  }

  /** trim leaves such a text as it is. */
  lemma TrimOfTrimmedForm(t: string)
    requires TrimmedForm(t)
    ensures Trim(t) == t
  {
    assert TrimStart(t) == t;
  }

  /** String.stripLeading: drops the leading Character.isWhitespace characters. */
  function StripLeading(s: string): (r: string)
    ensures |r| <= |s|
  {
    if s != [] && IsWhitespace(s[0]) then StripLeading(s[1..]) else s
  }

  /** stripLeading keeps an end part of s that does not start with whitespace, and drops only
      whitespace. */
  lemma {:induction false} StripLeadingShape(s: string)
    ensures var r := StripLeading(s);
            r == s[|s| - |r|..] && (r == [] || !IsWhitespace(r[0])) && IsBlank(s[..|s| - |r|])
  {
    if s != [] && IsWhitespace(s[0]) {
      StripLeadingShape(s[1..]);
      var r := StripLeading(s);
      assert s[1..][|s| - 1 - |r|..] == s[|s| - |r|..];
      assert s[..|s| - |r|] == [s[0]] + s[1..][..|s| - 1 - |r|];
    }
  }

  // ---------------------------------------------------------------------------
  // Case (Locale.ROOT, ASCII letters)
  // ---------------------------------------------------------------------------

  function LowerChar(c: char): char
  {
    if 'A' <= c <= 'Z' then (c as int + 32) as char else c
  }

  function UpperChar(c: char): char
  {
    if 'a' <= c <= 'z' then (c as int - 32) as char else c
  }

  function Lower(s: string): string
  {
    seq(|s|, i requires 0 <= i < |s| => LowerChar(s[i]))
  }

  function Upper(s: string): string
  {
    seq(|s|, i requires 0 <= i < |s| => UpperChar(s[i]))
  }

  /** String.equalsIgnoreCase over ASCII case folding. */
  predicate EqualsIgnoreCase(a: string, b: string)
  {
    Lower(a) == Lower(b)
  }

  lemma LowerIdempotent(s: string)
    ensures Lower(Lower(s)) == Lower(s)
  {
  }

  /** Text without upper-case letters is its own lower-case form. */
  lemma LowerOfLowercase(s: string)
    requires forall i :: 0 <= i < |s| ==> !('A' <= s[i] <= 'Z')
    ensures Lower(s) == s
  {
  }

  lemma LowerOfUpper(s: string)
    ensures Lower(Upper(s)) == Lower(s)
  {
  }

  // ---------------------------------------------------------------------------
  // Searching
  // ---------------------------------------------------------------------------

  predicate StartsWith(s: string, prefix: string)
  {
    |prefix| <= |s| && s[..|prefix|] == prefix
  }

  /** String.contains */
  predicate Contains(s: string, part: string)
    decreases |s|
  {
    StartsWith(s, part) || (s != [] && Contains(s[1..], part))
  }

  lemma ContainsAt(s: string, part: string, i: nat)
    requires i + |part| <= |s| && s[i..i + |part|] == part
    ensures Contains(s, part)
    decreases i
  {
    if i > 0 {
      assert s[1..][i - 1..i - 1 + |part|] == part;
      ContainsAt(s[1..], part, i - 1);
    }
  }

  lemma ContainsSelf(s: string)
    ensures Contains(s, s)
  {
    assert StartsWith(s, s);
  }

  // ---------------------------------------------------------------------------
  // Integers: Integer.parseInt and Integer.toString (radix 10)
  // ---------------------------------------------------------------------------

  const IntMin: int := -0x8000_0000
  const IntMax: int := 0x7FFF_FFFF

  predicate IsDigit(c: char)
  {
    '0' <= c <= '9'
  }

  predicate AllDigits(s: string)
  {
    forall i :: 0 <= i < |s| ==> IsDigit(s[i])
  }

  function DigitsValue(s: string): nat
    requires AllDigits(s)
  {
    if s == [] then 0 else DigitsValue(s[..|s| - 1]) * 10 + (s[|s| - 1] as int - '0' as int)
  }

  /** The text Integer.parseInt reads: a run of at least one digit, with or without one leading
      sign. */
  predicate IntText(s: string)
  {
    (|s| > 0 && AllDigits(s)) ||
    (|s| > 1 && (s[0] == '-' || s[0] == '+') && AllDigits(s[1..]))
  }

  /** The value an integer text denotes, before any range check. */
  function SignedValue(s: string): int
    requires IntText(s)
  {
    if AllDigits(s) then DigitsValue(s)
    else if s[0] == '-' then 0 - DigitsValue(s[1..]) as int
    else DigitsValue(s[1..])
  }

  /** Integer.parseInt(s): an optional sign, then at least one digit, within the 32-bit range;
      None stands for NumberFormatException. */
  function ParseInt(s: string): (r: Option<int>)
    ensures r.Some? <==> IntText(s) && IntMin <= SignedValue(s) <= IntMax
    ensures r.Some? ==> r.value == SignedValue(s)
    ensures r.Some? ==> IntMin <= r.value <= IntMax
    ensures r.Some? ==> |s| > 0 && IsDigit(s[|s| - 1])
    ensures |s| > 0 && AllDigits(s) && DigitsValue(s) <= IntMax ==> r == Some(DigitsValue(s))
  {
    if s == [] then None
    else
      var signed := s[0] == '-' || s[0] == '+';
      var digits := if signed then s[1..] else s;
      if digits == [] || !AllDigits(digits) then None
      else
        var v: int := if s[0] == '-' then 0 - DigitsValue(digits) as int else DigitsValue(digits);
        if IntMin <= v <= IntMax then Some(v) else None
  }

  /** Number.intValue on an integral value: the low 32 bits, as a signed int. */
  function IntValue(n: int): (r: int)
    ensures IntMin <= r <= IntMax
    ensures (r - n) % 0x1_0000_0000 == 0
    ensures IntMin <= n <= IntMax ==> r == n
  {
    (n - IntMin) % 0x1_0000_0000 + IntMin
  }

  function DigitChar(d: int): char
    requires 0 <= d < 10
  {
    ('0' as int + d) as char
  }

  function NatToString(n: nat): (r: string)
    ensures |r| > 0 && AllDigits(r)
  {
    if n < 10 then [DigitChar(n)] else NatToString(n / 10) + [DigitChar(n % 10)]
  }

  /** Integer.toString / String.valueOf(int). */
  function IntToString(n: int): string
  {
    if n < 0 then "-" + NatToString(-n) else NatToString(n)
  }

  lemma {:induction false} NatToStringValue(n: nat)
    ensures DigitsValue(NatToString(n)) == n
  {
    var s := NatToString(n);
    if n >= 10 {
      NatToStringValue(n / 10);
      assert s[..|s| - 1] == NatToString(n / 10);
    }
  }

  /** parseInt inverts toString on the 32-bit range. */
  lemma ParseIntToString(n: int)
    requires IntMin <= n <= IntMax
    ensures ParseInt(IntToString(n)) == Some(n)
  {
    if n < 0 {
      NatToStringValue(-n);
      assert IntToString(n)[1..] == NatToString(-n);
    } else {
      NatToStringValue(n);
    }
  }
}
