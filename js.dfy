/** The JavaScript primitives the client and server code relies on, on exact integers:
    Math.round of a quotient, the truncating remainder `%`, Number.prototype.toString,
    parseInt, String.prototype.trim, and the shapes a JSON request body can take. */
module Js {
  import opened Wrappers

  // ---------------------------------------------------------------------------
  // Math.round, Math.min, Math.max, %
  // ---------------------------------------------------------------------------

  /** Math.round(p / q) for a positive q: the nearest integer, halves rounded up. */
  function RoundDiv(p: int, q: int): (r: int)
    requires q > 0
    ensures 2 * q * r <= 2 * p + q < 2 * q * r + 2 * q
  {
    var n := 2 * p + q;
    var d := 2 * q;
    assert n == d * (n / d) + n % d;
    n / d
  }

  /** Only one integer satisfies the rounding bounds, so RoundDiv is determined by them. */
  lemma RoundDivUnique(p: int, q: int, r: int)
    requires q > 0
    requires 2 * q * r <= 2 * p + q < 2 * q * r + 2 * q
    ensures RoundDiv(p, q) == r
  {
    var s := RoundDiv(p, q);
    if s > r {
      MulMonotone(2 * q, r + 1, s);
    } else if s < r {
      MulMonotone(2 * q, s + 1, r);
    }
  }

  lemma MulMonotone(k: int, a: int, b: int)
    requires k >= 0 && a <= b
    ensures k * a <= k * b
  {
    assert k * b - k * a == k * (b - a);
  }

  /** Math.round is monotone: a larger numerator never rounds lower. */
  lemma RoundDivMonotone(p1: int, p2: int, q: int)
    requires q > 0 && p1 <= p2
    ensures RoundDiv(p1, q) <= RoundDiv(p2, q)
  {
    var r1, r2 := RoundDiv(p1, q), RoundDiv(p2, q);
    if r1 > r2 {
      MulMonotone(2 * q, r2 + 1, r1);
    }
  }

  function Min(a: int, b: int): (r: int)
    ensures r <= a && r <= b && (r == a || r == b)
  {
    if a <= b then a else b
  }

  function Max(a: int, b: int): (r: int)
    ensures r >= a && r >= b && (r == a || r == b)
  {
    if a >= b then a else b
  }

  /** JavaScript's `a % b` for b > 0: the remainder takes the sign of a (truncating division). */
  function JsRem(a: int, b: int): (r: int)
    requires b > 0
    ensures a >= 0 ==> 0 <= r < b
    ensures a < 0 ==> -b < r <= 0
  {
    if a >= 0 then a % b else -((-a) % b)
  }

  // ---------------------------------------------------------------------------
  // Number.prototype.toString and parseInt (radix 10)
  // ---------------------------------------------------------------------------

  predicate IsDigit(c: char)
  {
    '0' <= c <= '9'
  }

  predicate AllDigits(s: string)
  {
    forall i :: 0 <= i < |s| ==> IsDigit(s[i])
  }

  function DigitChar(d: nat): (c: char)
    requires d < 10
    ensures IsDigit(c) && c as int - '0' as int == d
  {
    ('0' as int + d) as char
  }

  /** The decimal text of a natural number, without leading zeros. */
  function NatToString(n: nat): (s: string)
    ensures |s| > 0 && AllDigits(s)
  {
    if n < 10 then [DigitChar(n)] else NatToString(n / 10) + [DigitChar(n % 10)]
  }

  /** `String(i)`: the decimal text of an integer, with a leading '-' when negative. */
  function IntToString(i: int): (s: string)
    ensures |s| > 0 && (IsDigit(s[0]) || s[0] == '-')
    ensures s[0] == '-' <==> i < 0
    ensures forall k :: 1 <= k < |s| ==> IsDigit(s[k])
  {
    if i < 0 then "-" + NatToString(-i) else NatToString(i)
  }

  /** The value of a string of decimal digits, most significant first. */
  function DigitsValue(s: string): nat
    requires AllDigits(s)
  {
    if s == [] then 0 else 10 * DigitsValue(s[..|s| - 1]) + (s[|s| - 1] as int - '0' as int)
  }

  /** The longest prefix of s made of decimal digits. */
  function LeadingDigits(s: string): (ds: string)
    ensures ds <= s && AllDigits(ds)
    ensures |ds| < |s| ==> !IsDigit(s[|ds|])
  {
    if |s| > 0 && IsDigit(s[0]) then [s[0]] + LeadingDigits(s[1..]) else []
  }

  /** The white space that trim and parseInt skip: ECMAScript's WhiteSpace (tab, vertical
      tab, form feed, the byte order mark and every Unicode space separator) and
      LineTerminator characters. */
  predicate IsSpace(c: char)
  {
    || ('\t' <= c <= '\r') || c == ' ' || c == '\U{00A0}' || c == '\U{1680}' || ('\U{2000}' <= c <= '\U{200A}')
    || c == '\U{2028}' || c == '\U{2029}' || c == '\U{202F}' || c == '\U{205F}' || c == '\U{3000}' || c == '\U{FEFF}'
  }

  /** s without its leading white space. */
  function TrimStart(s: string): (r: string)
    ensures |r| <= |s| && r == s[|s| - |r|..]
    ensures forall i :: 0 <= i < |s| - |r| ==> IsSpace(s[i])
    ensures r != [] ==> !IsSpace(r[0])
  {
    if |s| > 0 && IsSpace(s[0]) then TrimStart(s[1..]) else s
  }

  /** s without its trailing white space. */
  function TrimEnd(s: string): (r: string)
    ensures |r| <= |s| && r == s[..|r|]
    ensures forall i :: |r| <= i < |s| ==> IsSpace(s[i])
    ensures r != [] ==> !IsSpace(r[|r| - 1])
  {
    if |s| > 0 && IsSpace(s[|s| - 1]) then TrimEnd(s[..|s| - 1]) else s
  }

  /** String.prototype.trim: never longer than s, and neither starting nor ending with
      white space. */
  function Trim(s: string): (r: string)
    ensures |r| <= |s|
    ensures r != [] ==> !IsSpace(r[0]) && !IsSpace(r[|r| - 1])
  {
    var t := TrimStart(s);
    var r := TrimEnd(t);
    assert r != [] ==> r[0] == t[0];
    r
  }

  /** trim(s) is empty exactly when s holds nothing but white space; otherwise it starts
      and ends with a non-space character of s. */
  lemma TrimEmptyIff(s: string)
    ensures Trim(s) == [] <==> forall i :: 0 <= i < |s| ==> IsSpace(s[i])
    ensures Trim(s) != [] ==> !IsSpace(Trim(s)[0]) && !IsSpace(Trim(s)[|Trim(s)| - 1])
  {
    var t := TrimStart(s);
    var r := TrimEnd(t);
    if r == [] {
      assert |t| == 0;
    } else {
      assert r[0] == t[0];
      // t starts with a character that is not a space, and it belongs to s
      var k := |s| - |t|;
      assert s[k] == t[0];
    }
  }

  /** parseInt(s) with no radix: leading white space, an optional sign, then the longest run
      of decimal digits; None stands for NaN (no digit where a number should start). */
  function ParseInt(s: string): (r: Option<int>)
    ensures var t := TrimStart(s);
      r.Some? <==> (|t| > 0 && IsDigit(t[0])) || (|t| > 1 && (t[0] == '-' || t[0] == '+') && IsDigit(t[1]))
    ensures (forall i :: 0 <= i < |s| ==> IsSpace(s[i])) ==> r.None?
    ensures r.Some? && r.value < 0 ==> TrimStart(s)[0] == '-'
  {
    ParseSigned(TrimStart(s))
  }

  /** An optional sign followed by digits. */
  function ParseSigned(t: string): (r: Option<int>)
    ensures r.Some? <==> (|t| > 0 && IsDigit(t[0])) || (|t| > 1 && (t[0] == '-' || t[0] == '+') && IsDigit(t[1]))
    ensures r.Some? && r.value < 0 ==> t[0] == '-'
  {
    if |t| > 0 && t[0] == '-' then
      match ParseDigits(t[1..])
      case None => None
      case Some(v) => Some(-v)
    else if |t| > 0 && t[0] == '+' then ParseDigits(t[1..])
    else ParseDigits(t)
  }

  /** The value of the leading digits of b, or None when b does not start with a digit. */
  function ParseDigits(b: string): (r: Option<int>)
    ensures r.Some? <==> |b| > 0 && IsDigit(b[0])
    ensures r.Some? ==> r.value >= 0
  {
    var ds := LeadingDigits(b);
    if ds == [] then None else Some(DigitsValue(ds))
  }

  /** JavaScript truthiness of a number that may be NaN: 0 and NaN are falsy. */
  predicate Truthy(n: Option<int>)
  {
    n.Some? && n.value != 0
  }

  lemma {:induction false} DigitsValueSnoc(s: string, c: char)
    requires AllDigits(s) && IsDigit(c)
    ensures AllDigits(s + [c])
    ensures DigitsValue(s + [c]) == 10 * DigitsValue(s) + (c as int - '0' as int)
  {
    assert (s + [c])[..|s + [c]| - 1] == s;
  }

  lemma {:induction false} DigitsValueOfNat(n: nat)
    ensures DigitsValue(NatToString(n)) == n
  {
    if n >= 10 {
      DigitsValueOfNat(n / 10);
      DigitsValueSnoc(NatToString(n / 10), DigitChar(n % 10));
    }
  }

  lemma {:induction false} LeadingDigitsOf(ds: string, rest: string)
    requires AllDigits(ds)
    requires rest == [] || !IsDigit(rest[0])
    ensures LeadingDigits(ds + rest) == ds
  {
    if ds != [] {
      assert (ds + rest)[1..] == ds[1..] + rest;
      LeadingDigitsOf(ds[1..], rest);
    } else {
      assert ds + rest == rest;
    }
  }

  lemma ParseDigitsOfNat(n: nat, rest: string)
    requires rest == [] || !IsDigit(rest[0])
    ensures ParseDigits(NatToString(n) + rest) == Some(n)
  {
    LeadingDigitsOf(NatToString(n), rest);
    DigitsValueOfNat(n);
  }

  /** Text that does not start with white space is left as it is by TrimStart. */
  lemma TrimStartNoSpace(s: string)
    requires |s| > 0 && !IsSpace(s[0])
    ensures TrimStart(s) == s
  {
  }

  /** Unsigned digits followed by non-digit text read back as their value. */
  lemma ParseSignedOfNat(n: nat, rest: string)
    requires rest == [] || !IsDigit(rest[0])
    ensures ParseSigned(NatToString(n) + rest) == Some(n)
  {
    var t := NatToString(n) + rest;
    assert t[0] == NatToString(n)[0] && IsDigit(t[0]);
    ParseDigitsOfNat(n, rest);
  }

  /** A '-' in front of the digits negates the value read. */
  lemma ParseSignedOfNegative(n: nat, rest: string)
    requires rest == [] || !IsDigit(rest[0])
    ensures ParseSigned("-" + (NatToString(n) + rest)) == Some(0 - n)
  {
    var t := "-" + (NatToString(n) + rest);
    assert t[1..] == NatToString(n) + rest;
    ParseDigitsOfNat(n, rest);
  }

  /** parseInt reads a natural's text back, whatever non-digit text follows it. */
  lemma ParseIntOfNat(n: nat, rest: string)
    requires rest == [] || !IsDigit(rest[0])
    ensures ParseInt(NatToString(n) + rest) == Some(n)
  {
    var s := NatToString(n) + rest;
    assert s[0] == NatToString(n)[0];
    TrimStartNoSpace(s);
    ParseSignedOfNat(n, rest);
  }

  /** The same with a leading '-'. */
  lemma ParseIntOfNegative(n: nat, rest: string)
    requires rest == [] || !IsDigit(rest[0])
    ensures ParseInt("-" + (NatToString(n) + rest)) == Some(0 - n)
  {
    TrimStartNoSpace("-" + (NatToString(n) + rest));
    ParseSignedOfNegative(n, rest);
  }

  /** String(i) for a negative i is '-' and the digits of -i. */
  lemma ParseIntOfNegativeString(i: int, rest: string)
    requires i < 0 && (rest == [] || !IsDigit(rest[0]))
    ensures ParseInt(IntToString(i) + rest) == Some(i)
  {
    var n: nat := -i;
    assert IntToString(i) == "-" + NatToString(n);
    assert ("-" + NatToString(n)) + rest == "-" + (NatToString(n) + rest);
    ParseIntOfNegative(n, rest);
  }

  /** parseInt reads back the number that toString wrote, whatever non-digit text follows it. */
  lemma ParseIntOfIntToString(i: int, rest: string)
    requires rest == [] || !IsDigit(rest[0])
    ensures ParseInt(IntToString(i) + rest) == Some(i)
  {
    if i < 0 {
      ParseIntOfNegativeString(i, rest);
    } else {
      assert IntToString(i) == NatToString(i);
      ParseIntOfNat(i, rest);
    }
  }

  /** A single digit reads back as its value. */
  lemma ParseIntOfDigit(d: nat)
    requires d < 10
    ensures ParseInt([DigitChar(d)]) == Some(d)
  {
    assert [DigitChar(d)] == NatToString(d) + [];
    ParseIntOfIntToString(d, []);
  }

  /** The space separators beyond ASCII and the no-break space count as white space. */
  lemma UnicodeSpaceSeparators()
    ensures IsSpace('\U{1680}') && IsSpace('\U{202F}') && IsSpace('\U{205F}') && IsSpace('\U{3000}')
    ensures forall c :: '\U{2000}' <= c <= '\U{200A}' ==> IsSpace(c)
  {
  }

  /** parseInt skips leading Unicode white space: a space separator before the number
      does not make it NaN. */
  lemma ParseIntSkipsUnicodeSpace(c: char, i: int)
    requires IsSpace(c)
    ensures ParseInt([c] + IntToString(i)) == Some(i)
  {
    var t := [c] + IntToString(i);
    assert t[1..] == IntToString(i);
    assert TrimStart(t) == TrimStart(IntToString(i));
    ParseIntRoundTrip(i);
  }

  /** The round trip without trailing text. */
  lemma ParseIntRoundTrip(i: int)
    ensures ParseInt(IntToString(i)) == Some(i)
  {
    ParseIntOfIntToString(i, []);
    assert IntToString(i) + [] == IntToString(i);
  }

  /** Different naturals have different decimal texts (store ids are built from them). */
  lemma NatToStringInjective(m: nat, n: nat)
    requires NatToString(m) == NatToString(n)
    ensures m == n
  {
    ParseIntRoundTrip(m);
    ParseIntRoundTrip(n);
  }

  // ---------------------------------------------------------------------------
  // JSON request bodies
  // ---------------------------------------------------------------------------

  /** The value found under one key of a parsed JSON request body. `Absent` is a missing
      key (undefined), `Fraction` a number with a fractional part, `Composite` an array or
      an object. */
  datatype JsonValue = Absent | Null | Bool(b: bool) | Int(i: int) | Fraction | Text(s: string) | Composite
  {
    /** typeof value === "number" */
    predicate IsNumber()
    {
      Int? || Fraction?
    }
  }
}
