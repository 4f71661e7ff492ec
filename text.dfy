/** String helpers the command modules rely on: Python's `str.split` on a
    single-character separator, its inverse `str.join`, and the decimal
    forms accepted by `int()` and `float()`. */
module Text {
  import opened Wrappers

  // ---------------------------------------------------------------------
  // Splitting and joining

  /** `s.split(sep)`: the maximal runs between separators, in order. There
      is always at least one piece, and no piece contains the separator. */
  function Split(s: string, sep: char): (parts: seq<string>)
    ensures |parts| >= 1
    ensures forall i :: 0 <= i < |parts| ==> sep !in parts[i]
    decreases |s|
  {
    if s == [] then [""]
    else
      var rest := Split(s[1..], sep);
      if s[0] == sep then [""] + rest
      else [[s[0]] + rest[0]] + rest[1..]
  }

  /** `sep.join(parts)`. */
  function Join(parts: seq<string>, sep: char): string
  {
    if |parts| == 0 then ""
    else if |parts| == 1 then parts[0]
    else parts[0] + [sep] + Join(parts[1..], sep)
  }

  /** Number of occurrences of `c` in `s`. */
  function Count(s: string, c: char): nat
  {
    if s == [] then 0 else (if s[0] == c then 1 else 0) + Count(s[1..], c)
  }

  /** Joining the pieces back with the separator restores the string. */
  lemma {:induction false} JoinSplit(s: string, sep: char)
    ensures Join(Split(s, sep), sep) == s
    decreases |s|
  {
    if s != [] {
      var rest := Split(s[1..], sep);
      JoinSplit(s[1..], sep);
      if s[0] == sep {
        assert Split(s, sep) == [""] + rest;
        assert ([""] + rest)[1..] == rest;
      } else {
        var parts := Split(s, sep);
        assert parts == [[s[0]] + rest[0]] + rest[1..];
        if |rest| == 1 {
          assert Join(parts, sep) == [s[0]] + rest[0];
          assert Join(rest, sep) == rest[0];
        } else {
          assert parts[1..] == rest[1..];
          assert Join(parts, sep) == [s[0]] + rest[0] + [sep] + Join(rest[1..], sep);
          assert Join(rest, sep) == rest[0] + [sep] + Join(rest[1..], sep);
        }
      }
    }
  }

  /** Text without the separator is a single piece. */
  lemma {:induction false} SplitWithoutSeparator(p: string, sep: char)
    requires sep !in p
    ensures Split(p, sep) == [p]
    decreases |p|
  {
    if p != [] {
      SplitWithoutSeparator(p[1..], sep);
      assert [p[0]] + p[1..] == p;
    }
  }

  /** A separator after a separator-free prefix ends the first piece. */
  lemma {:induction false} SplitAfterPiece(p: string, sep: char, r: string)
    requires sep !in p
    ensures Split(p + [sep] + r, sep) == [p] + Split(r, sep)
    decreases |p|
  {
    var s := p + [sep] + r;
    if p == [] {
      assert s == [sep] + r;
      assert s[1..] == r;
    } else {
      assert s[1..] == p[1..] + [sep] + r;
      SplitAfterPiece(p[1..], sep, r);
      var rest := Split(s[1..], sep);
      assert rest[0] == p[1..] && rest[1..] == Split(r, sep);
      assert [s[0]] + rest[0] == p;
    }
  }

  /** Splitting what was joined gives the pieces back, provided none of
      them contains the separator. */
  lemma {:induction false} SplitJoin(parts: seq<string>, sep: char)
    requires |parts| >= 1
    requires forall i :: 0 <= i < |parts| ==> sep !in parts[i]
    ensures Split(Join(parts, sep), sep) == parts
  {
    if |parts| == 1 {
      SplitWithoutSeparator(parts[0], sep);
    } else {
      SplitJoin(parts[1..], sep);
      SplitAfterPiece(parts[0], sep, Join(parts[1..], sep));
      assert [parts[0]] + parts[1..] == parts;
    }
  }

  /** Joining starts with the first piece, so it is not empty when that
      piece is not. */
  lemma JoinNotEmpty(parts: seq<string>, sep: char)
    requires |parts| >= 1 && |parts[0]| >= 1
    ensures Join(parts, sep) != ""
  {
    if |parts| > 1 {
      assert Join(parts, sep) == parts[0] + [sep] + Join(parts[1..], sep);
    }
  }

  /** There is one more piece than there are separators. */
  lemma {:induction false} SplitCount(s: string, sep: char)
    ensures |Split(s, sep)| == Count(s, sep) + 1
    decreases |s|
  {
    if s != [] {
      SplitCount(s[1..], sep);
    }
  }

  // ---------------------------------------------------------------------
  // Decimal numbers

  predicate IsDigit(c: char)
  {
    '0' <= c <= '9'
  }

  function DigitValue(c: char): (d: nat)
    requires IsDigit(c)
    ensures d < 10
  {
    (c - '0') as nat
  }

  predicate AllDigits(s: string)
  {
    forall i :: 0 <= i < |s| ==> IsDigit(s[i])
  }

  /** The value of a string of decimal digits, most significant first. */
  function DigitsValue(s: string): nat
    requires AllDigits(s)
  {
    if s == [] then 0 else DigitsValue(s[..|s| - 1]) * 10 + DigitValue(s[|s| - 1])
  }

  function Pow10(n: nat): (p: nat)
    ensures p >= 1
  {
    if n == 0 then 1 else 10 * Pow10(n - 1)
  }

  /** The shortest decimal form of `n` (what `str(n)` prints). */
  function NatToString(n: nat): (s: string)
    ensures |s| >= 1 && AllDigits(s)
  {
    if n < 10 then [('0' as int + n) as char]
    else NatToString(n / 10) + [('0' as int + n % 10) as char]
  }

  /** Reading back what `NatToString` prints gives the number. */
  lemma {:induction false} DigitsValueOfNatToString(n: nat)
    ensures DigitsValue(NatToString(n)) == n
  {
    if n >= 10 {
      DigitsValueOfNatToString(n / 10);
      var s := NatToString(n);
      assert s[..|s| - 1] == NatToString(n / 10);
    }
  }

  /** A digit string has no value beyond its length's power of ten. */
  lemma {:induction false} DigitsValueBound(s: string)
    requires AllDigits(s)
    ensures DigitsValue(s) < Pow10(|s|)
  {
    if s != [] {
      DigitsValueBound(s[..|s| - 1]);
    }
  }

  /** The whitespace `str.strip()`, `int()` and `float()` remove (its ASCII
      part): space, tab to carriage return, and the four separators 0x1C to
      0x1F. */
  predicate IsSpace(c: char)
  {
    c == ' ' || '\t' <= c <= '\r' || '\U{001C}' <= c <= '\U{001F}'
  }

  function StripLeft(s: string): (r: string)
    ensures |r| <= |s| && r == s[|s| - |r|..]
    ensures r == [] || !IsSpace(r[0])
  {
    if s != [] && IsSpace(s[0]) then StripLeft(s[1..]) else s
  }

  function StripRight(s: string): (r: string)
    ensures |r| <= |s| && r == s[..|r|]
    ensures r == [] || !IsSpace(r[|r| - 1])
  {
    if s != [] && IsSpace(s[|s| - 1]) then StripRight(s[..|s| - 1]) else s
  }

  /** `s.strip()`. */
  function Strip(s: string): string
  {
    StripRight(StripLeft(s))
  }

  /** The errors `int()` and `float()` raise on malformed text. */
  datatype ParseError = InvalidLiteral(text: string)

  /** A sign in front of a number: '+' keeps it, '-' negates it. */
  function SignOf(s: string): (r: (int, string))
    ensures r.0 == 1 || r.0 == -1
    ensures |r.1| <= |s|
  {
    if s != [] && s[0] == '-' then (-1, s[1..])
    else if s != [] && s[0] == '+' then (1, s[1..])
    else (1, s)
  }

  /** `int(s)` in base 10: surrounding whitespace, an optional sign, then
      at least one decimal digit. */
  function ParseInt(s: string): (r: Result<int, ParseError>)
    ensures r.Success? <==> (var t := SignOf(Strip(s)).1; |t| >= 1 && AllDigits(t))
  {
    var (sign, t) := SignOf(Strip(s));
    if |t| >= 1 && AllDigits(t) then Success(sign * DigitsValue(t))
    else Failure(InvalidLiteral(s))
  }

  /** Text that starts and ends with something other than whitespace is
      left alone by `strip()`. */
  lemma StripUnchanged(s: string)
    requires |s| >= 1 && !IsSpace(s[0]) && !IsSpace(s[|s| - 1])
    ensures Strip(s) == s
  {
    assert StripLeft(s) == s;
  }

  /** A bare digit string reads as its value. */
  lemma ParseIntOfDigits(s: string)
    requires |s| >= 1 && AllDigits(s)
    ensures ParseInt(s) == Success(DigitsValue(s) as int)
  {
    StripUnchanged(s);
    assert SignOf(s) == (1, s);
  }

  /** `int(str(n))` gives back `n`. */
  lemma ParseIntOfNatToString(n: nat)
    ensures ParseInt(NatToString(n)) == Success(n as int)
  {
    DigitsValueOfNatToString(n);
    ParseIntOfDigits(NatToString(n));
  }

  /** `int("-" + str(n))` gives back `-n`. */
  lemma ParseIntOfNegative(n: nat)
    ensures ParseInt("-" + NatToString(n)) == Success(-(n as int))
  {
    var d := NatToString(n);
    var s := "-" + d;
    DigitsValueOfNatToString(n);
    assert s[|s| - 1] == d[|d| - 1];
    StripUnchanged(s);
    assert s[1..] == d;
    assert SignOf(s) == (-1, d);
  }

  /** A decimal literal `digits[.digits]` or `.digits` with at least one
      digit, as `float()` reads it: its value is exact here. */
  function DecimalValue(t: string): Option<real>
  {
    var k := IndexOf(t, '.');
    if k == |t| then
      if |t| >= 1 && AllDigits(t) then Some(DigitsValue(t) as real) else None
    else
      var whole, frac := t[..k], t[k + 1..];
      if AllDigits(whole) && AllDigits(frac) && |whole| + |frac| >= 1 then
        Some(DigitsValue(whole) as real + DigitsValue(frac) as real / Pow10(|frac|) as real)
      else None
  }

  /** The first index of `c` in `s`, or `|s|` when it does not occur. */
  function IndexOf(s: string, c: char): (k: nat)
    ensures k <= |s|
    ensures forall i :: 0 <= i < k ==> s[i] != c
    ensures k < |s| ==> s[k] == c
  {
    if s == [] then 0 else if s[0] == c then 0 else 1 + IndexOf(s[1..], c)
  }

  /** `float(s)` for plain decimal literals: surrounding whitespace, an
      optional sign, then a decimal literal. */
  function ParseReal(s: string): (r: Result<real, ParseError>)
    ensures r.Success? <==> DecimalValue(SignOf(Strip(s)).1).Some?
  {
    var (sign, t) := SignOf(Strip(s));
    match DecimalValue(t)
    case Some(v) => Success(sign as real * v)
    case None => Failure(InvalidLiteral(s))
  }

  /** A bare digit string reads as its value. */
  lemma ParseRealOfDigits(s: string)
    requires |s| >= 1 && AllDigits(s)
    ensures ParseReal(s) == Success(DigitsValue(s) as real)
  {
    StripUnchanged(s);
    assert SignOf(s) == (1, s);
    assert forall i :: 0 <= i < |s| ==> s[i] != '.';
  }

  /** `float(str(n))` is `n`. */
  lemma ParseRealOfNatToString(n: nat)
    ensures ParseReal(NatToString(n)) == Success(n as real)
  {
    DigitsValueOfNatToString(n);
    ParseRealOfDigits(NatToString(n));
  }

  lemma FractionBelowOne(f: real, p: real)
    requires 0.0 <= f < p
    ensures 0.0 <= f / p < 1.0
  {
    assert f / p * p == f;
  }

  /** A literal reads as a value no smaller than its integer part and less
      than one above it. */
  lemma DecimalValueBounds(t: string)
    requires DecimalValue(t).Some?
    ensures var k := IndexOf(t, '.');
            AllDigits(t[..k]) &&
            DigitsValue(t[..k]) as real <= DecimalValue(t).value < DigitsValue(t[..k]) as real + 1.0
  {
    var k := IndexOf(t, '.');
    if k == |t| {
      assert t[..k] == t;
    } else {
      var frac := t[k + 1..];
      DigitsValueBound(frac);
      FractionBelowOne(DigitsValue(frac) as real, Pow10(|frac|) as real);
    }
  }
}
