/** String primitives the handlers lean on: `String.prototype.trim`, the global
    `parseInt` (with an explicit radix of 10, or with the radix left out), and the
    decimal rendering of a non-negative integer. */
module JsText {
  import opened Wrappers

  /* ------------------------------------------------------------ whitespace */

  /** ECMAScript WhiteSpace and LineTerminator code points: what `trim` strips and
      what `parseInt` skips. */
  predicate IsWhitespace(c: char) {
    var n := c as int;
    || n == 0x09 || n == 0x0A || n == 0x0B || n == 0x0C || n == 0x0D || n == 0x20
    || n == 0xA0 || n == 0x1680 || (0x2000 <= n <= 0x200A)
    || n == 0x2028 || n == 0x2029 || n == 0x202F || n == 0x205F || n == 0x3000 || n == 0xFEFF
  }

  /** Every character of `s` is whitespace (vacuously so for the empty string). */
  predicate IsBlank(s: string) {
    forall i :: 0 <= i < |s| ==> IsWhitespace(s[i])
  }

  /** `s.trimStart()`: the suffix left after dropping leading whitespace. */
  function TrimStart(s: string): (r: string)
    ensures |r| <= |s| && r == s[|s| - |r|..]
    ensures IsBlank(s[..|s| - |r|])
    ensures |r| > 0 ==> !IsWhitespace(r[0])
    decreases |s|
  {
    if |s| > 0 && IsWhitespace(s[0]) then TrimStart(s[1..]) else s
  }

  /** `s.trimEnd()`: the prefix left after dropping trailing whitespace. */
  function TrimEnd(s: string): (r: string)
    ensures |r| <= |s| && r == s[..|r|]
    ensures IsBlank(s[|r|..])
    ensures |r| > 0 ==> !IsWhitespace(r[|r| - 1])
    decreases |s|
  {
    if |s| > 0 && IsWhitespace(s[|s| - 1]) then TrimEnd(s[..|s| - 1]) else s
  }

  /** `s.trim()`. */
  function Trim(s: string): string {
    TrimEnd(TrimStart(s))
  }

  /** `s.trim() === ""` holds exactly for the all-whitespace strings. */
  lemma TrimEmptyIffBlank(s: string)
    ensures Trim(s) == "" <==> IsBlank(s)
  {
    var t := TrimStart(s);
    if IsBlank(s) {
      if |t| > 0 {
        assert false;
      }
    }
    if Trim(s) == "" {
      if |t| > 0 {
        assert false;
      }
      assert s[..|s|] == s;
    }
  }

  /* --------------------------------------------------------------- digits */

  /** Whether `c` is a digit in base 10 or base 16 (either letter case). */
  predicate IsDigitIn(c: char, base: nat) {
    ('0' <= c <= '9' && (c as int - '0' as int) < base)
    || (base == 16 && ('a' <= c <= 'f' || 'A' <= c <= 'F'))
  }

  /** The value of a digit character. */
  function DigitValue(c: char): nat {
    if '0' <= c <= '9' then c as int - '0' as int
    else if 'a' <= c <= 'f' then c as int - 'a' as int + 10
    else if 'A' <= c <= 'F' then c as int - 'A' as int + 10
    else 0
  }

  /** The longest prefix of `s` made of base-`base` digits. */
  function DigitPrefix(s: string, base: nat): (r: string)
    ensures |r| <= |s| && r == s[..|r|]
    ensures forall i :: 0 <= i < |r| ==> IsDigitIn(r[i], base)
    ensures |r| < |s| ==> !IsDigitIn(s[|r|], base)
    decreases |s|
  {
    if |s| > 0 && IsDigitIn(s[0], base) then [s[0]] + DigitPrefix(s[1..], base) else ""
  }

  /** The number a digit string denotes in base `base`, most significant digit first. */
  function DigitsValue(ds: string, base: nat): nat
    decreases |ds|
  {
    if |ds| == 0 then 0
    else DigitsValue(ds[..|ds| - 1], base) * base + DigitValue(ds[|ds| - 1])
  }

  /** The character of a decimal digit. */
  function DigitChar(d: nat): (c: char)
    requires d < 10
    ensures IsDigitIn(c, 10) && DigitValue(c) == d
  {
    ('0' as int + d) as char
  }

  /** The decimal rendering of `n`, as `String(n)` gives it for a safe integer. */
  function NatToString(n: nat): (r: string)
    ensures |r| >= 1
    ensures forall i :: 0 <= i < |r| ==> IsDigitIn(r[i], 10)
    ensures r[0] == '0' ==> n == 0 && |r| == 1
    ensures DigitsValue(r, 10) == n
  {
    if n < 10 then [DigitChar(n)]
    else
      var r := NatToString(n / 10) + [DigitChar(n % 10)];
      assert r[..|r| - 1] == NatToString(n / 10);
      r
  }

  /* -------------------------------------------------------------- parseInt */

  /** `parseInt(s, 10)` versus `parseInt(s)`: without a radix a `0x`/`0X` prefix selects
      base 16. */
  datatype Radix = Decimal | Auto

  /** The text after leading whitespace and an optional sign, and whether the sign was
      a minus. */
  function Unsigned(s: string): (string, bool) {
    var t := TrimStart(s);
    if |t| > 0 && t[0] == '-' then (t[1..], true)
    else if |t| > 0 && t[0] == '+' then (t[1..], false)
    else (t, false)
  }

  /** The base `parseInt` reads the unsigned text in, and the text after any prefix. */
  function BaseAndDigits(u: string, radix: Radix): (nat, string) {
    if radix == Auto && |u| >= 2 && u[0] == '0' && (u[1] == 'x' || u[1] == 'X') then (16, u[2..])
    else (10, u)
  }

  /** `parseInt(s, 10)` (`Decimal`) or `parseInt(s)` (`Auto`); `None` is NaN. The value is
      read from the longest digit prefix after whitespace, sign and prefix. */
  function ParseInt(s: string, radix: Radix): (r: Option<int>)
    ensures r.None? <==>
      var (u, _) := Unsigned(s);
      var (base, w) := BaseAndDigits(u, radix);
      |w| == 0 || !IsDigitIn(w[0], base)
  {
    var (u, negative) := Unsigned(s);
    var (base, w) := BaseAndDigits(u, radix);
    var ds := DigitPrefix(w, base);
    if |ds| == 0 then None
    else if negative then Some(-(DigitsValue(ds, base) as int))
    else Some(DigitsValue(ds, base))
  }

  /** `parseInt(req.query.x, …)` for a query parameter that may be absent; an absent
      parameter is `undefined`, which parses as NaN. */
  function ParseParam(p: Option<string>, radix: Radix): Option<int> {
    match p
    case None => None
    case Some(s) => ParseInt(s, radix)
  }

  /** A string of digits is its own longest digit prefix. */
  lemma {:induction false} AllDigitsPrefix(s: string, base: nat)
    requires forall i :: 0 <= i < |s| ==> IsDigitIn(s[i], base)
    ensures DigitPrefix(s, base) == s
    decreases |s|
  {
    if |s| > 0 {
      AllDigitsPrefix(s[1..], base);
      assert s == [s[0]] + s[1..];
    }
  }

  /** Reading back a rendered number gives the number, with or without a radix. */
  lemma ParseIntNatToString(n: nat, radix: Radix)
    ensures ParseInt(NatToString(n), radix) == Some(n)
  {
    var s := NatToString(n);
    assert !IsWhitespace(s[0]);
    assert TrimStart(s) == s;
    AllDigitsPrefix(s, 10);
  }

  /** Reading back a minus sign followed by a rendered number gives its negation. */
  lemma ParseIntNegative(n: nat, radix: Radix)
    ensures ParseInt("-" + NatToString(n), radix) == Some(-(n as int))
  {
    var s := NatToString(n);
    var t := "-" + s;
    assert !IsWhitespace(t[0]);
    assert TrimStart(t) == t;
    assert t[1..] == s;
    AllDigitsPrefix(s, 10);
  }
}
