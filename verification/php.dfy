/** The PHP value conversions the plugin leans on: `empty()`, `intval()`,
    `trim()` and `explode()` with a one-character delimiter. */
module Php {
  import opened Common
  import opened Decimal

  /** A widget setting or request parameter as PHP sees it: absent, a
      string, or an integer. */
  datatype Raw = Missing | Str(s: string) | Num(n: int)

  /** PHP `empty()` on such a value: absent, "", "0" and 0 are empty. */
  predicate Empty(v: Raw) {
    match v
    case Missing => true
    case Str(s) => s == "" || s == "0"
    case Num(n) => n == 0
  }

  /** The whitespace PHP skips in front of a numeric string. */
  predicate IsNumericSpace(c: char) {
    c == ' ' || c == '\t' || c == '\n' || c == '\r' || c == '\U{B}' || c == '\U{C}'
  }

  /** `s` without its leading numeric whitespace. */
  function SkipSpace(s: string): (r: string)
    ensures |r| <= |s| && r == s[|s| - |r|..]
    ensures |r| > 0 ==> !IsNumericSpace(r[0])
    decreases |s|
  {
    if |s| > 0 && IsNumericSpace(s[0]) then SkipSpace(s[1..]) else s
  }

  /** The range of a PHP integer on a 64-bit build. */
  const MinInt: int := -0x8000_0000_0000_0000
  const MaxInt: int := 0x7FFF_FFFF_FFFF_FFFF

  /** The least magnitude that rounds to an infinite double:
      2^1024 - 2^970, halfway between the largest finite double and 2^1024. */
  const DoubleOverflow: nat := 179769313486231580793728971405303415079934132710037826936173778980444968292764750946649017977587207096330286416692887910946555547851940402630657488671505820681908902000708383676273854845817711531764475730270069855571366959622842914819860834936475292719074168444365510704342711559699508093042880177904174497792

  /** `a` with `k` zeros appended: a times ten to the k. */
  function Shift(a: nat, k: nat): (r: nat)
    ensures r >= a
  {
    if k == 0 then a else 10 * Shift(a, k - 1)
  }

  /** `a` with its last `k` digits dropped: a divided by ten to the k,
      rounded down. */
  function Unshift(a: nat, k: nat): (r: nat)
    ensures r <= a
  {
    if k == 0 then a else Unshift(a / 10, k - 1)
  }

  /** A numeric string's value: `digits` times ten to the `scale`, negated
      when `negative`. */
  datatype Numeric = Numeric(negative: bool, digits: nat, scale: int)

  /** The exponent a numeric string ends with: "e" or "E", an optional
      sign, and at least one digit; anything else adds no exponent. */
  function Exponent(s: string): int {
    if |s| >= 2 && (s[0] == 'e' || s[0] == 'E') then
      var d := LeadingDigits(if s[1] == '-' || s[1] == '+' then s[2..] else s[1..]);
      if |d| == 0 then 0
      else if s[1] == '-' then 0 - DigitsValue(d) as int
      else DigitsValue(d)
    else 0
  }

  /** The numeric prefix of `t` as PHP's numeric-string reader accepts it:
      an optional sign, then digits with an optional fraction, or a
      fraction alone, then an optional exponent; `None` when `t` does not
      start with a number. */
  function NumericPrefix(t: string): (r: Option<Numeric>)
    ensures r.Some? ==> |t| > 0 && (r.value.negative <==> t[0] == '-')
  {
    var signed := |t| > 0 && (t[0] == '-' || t[0] == '+');
    var u := if signed then t[1..] else t;
    var whole := LeadingDigits(u);
    var rest := u[|whole|..];
    var dot := |rest| > 0 && rest[0] == '.';
    var frac := if dot then LeadingDigits(rest[1..]) else "";
    if |whole| == 0 && |frac| == 0 then None
    else
      var after := if dot then rest[1 + |frac|..] else rest;
      assert AllDigits(whole + frac);
      Some(Numeric(|t| > 0 && t[0] == '-', DigitsValue(whole + frac), Exponent(after) - |frac|))
  }

  /** The number is too large for a double. */
  predicate Overflows(x: Numeric) {
    if x.scale >= 0 then Shift(x.digits, x.scale) >= DoubleOverflow
    else x.digits >= Shift(DoubleOverflow, -x.scale)
  }

  /** The integer part of the number's magnitude. */
  function Magnitude(x: Numeric): nat {
    if x.scale >= 0 then Shift(x.digits, x.scale) else Unshift(x.digits, 0 - x.scale)
  }

  /** An integer outside the 64-bit range saturates at its nearer end. */
  function Cap(n: int): (r: int)
    ensures MinInt <= r <= MaxInt
    ensures MinInt <= n <= MaxInt ==> r == n
    ensures n > MaxInt ==> r == MaxInt
    ensures n < MinInt ==> r == MinInt
  {
    if n > MaxInt then MaxInt else if n < MinInt then MinInt else n
  }

  /** PHP 7.4 `intval` of a string: leading whitespace is skipped and the
      numeric prefix read; no prefix reads as 0, a number too large for a
      double (infinite) reads as 0, and any other number is truncated
      toward zero and saturated to the 64-bit range. */
  function StrToInt(s: string): (r: int)
    ensures MinInt <= r <= MaxInt
    ensures NumericPrefix(SkipSpace(s)).None? ==> r == 0
  {
    match NumericPrefix(SkipSpace(s))
    case None => 0
    case Some(x) =>
      if Overflows(x) then 0
      else Cap(if x.negative then 0 - Magnitude(x) as int else Magnitude(x))
  }

  /** PHP `intval` of a setting or parameter; an absent value reads as 0. */
  function IntVal(v: Raw): int {
    match v
    case Missing => 0
    case Str(s) => StrToInt(s)
    case Num(n) => n
  }

  /** `!empty($v) ? intval($v) : $default`, the idiom every layout uses
      to read a numeric setting. */
  function IntOr(v: Raw, default: int): int {
    if Empty(v) then default else IntVal(v)
  }

  /** A decimal integer is read as its sign and magnitude, with no
      fraction and no exponent. */
  lemma {:induction false} NumericOfIntString(n: int)
    ensures NumericPrefix(IntString(n)) == Some(Numeric(n < 0, if n < 0 then -n else n, 0))
  {
    var t := IntString(n);
    var d := if n < 0 then NatString(-n) else NatString(n);
    if n < 0 {
      assert t == "-" + d;
      assert t[1..] == d;
    } else {
      assert t == d && t[0] != '-' && t[0] != '+';
    }
    DigitsAreTheirOwnPrefix(d);
    assert d[|d|..] == "";
    assert d + "" == d;
    NatStringValue(if n < 0 then -n else n);
  }

  /** `intval` of an integer spelled out in decimal: the integer itself
      when it is a 64-bit value, the nearer end of the range when it lies
      beyond, and 0 when it is too large even for a double. */
  lemma {:induction false} IntStringSaturates(n: int)
    ensures 0 - DoubleOverflow < n < DoubleOverflow ==> StrToInt(IntString(n)) == Cap(n)
    ensures n <= 0 - DoubleOverflow || DoubleOverflow <= n ==> StrToInt(IntString(n)) == 0
  {
    var s := IntString(n);
    assert !IsNumericSpace(s[0]);
    assert SkipSpace(s) == s;
    NumericOfIntString(n);
  }

  /** An integer in the 64-bit range spelled out in decimal, as a browser
      sends it in a form field, is read back by `intval` as that integer. */
  lemma IntValOfIntString(n: int)
    requires MinInt <= n <= MaxInt
    ensures StrToInt(IntString(n)) == n
  {
    IntStringSaturates(n);
  }

  /** One past the largest 64-bit integer reads as the largest: "9223372036854775808"
      is 9223372036854775807 to `intval`. */
  lemma IntValSaturates()
    ensures StrToInt(IntString(MaxInt + 1)) == MaxInt
    ensures StrToInt(IntString(MinInt - 1)) == MinInt
  {
    IntStringSaturates(MaxInt + 1);
    IntStringSaturates(MinInt - 1);
  }

  /** Digits followed by neither a digit nor a point are read as a whole
      number, with whatever exponent follows. */
  lemma {:induction false} WholeNumberPrefix(d: string, rest: string)
    requires |d| > 0 && AllDigits(d)
    requires |rest| == 0 || (!IsDigit(rest[0]) && rest[0] != '.')
    ensures NumericPrefix(d + rest) == Some(Numeric(false, DigitsValue(d), Exponent(rest)))
  {
    var t := d + rest;
    assert t[0] == d[0] && t[0] != '-' && t[0] != '+';
    LeadingDigitsStop(d, rest);
    assert t[|d|..] == rest;
    assert d + "" == d;
  }

  /** `intval` honours an exponent: "<m>e<k>" reads as m times ten to
      the k, saturated, or 0 beyond the doubles. */
  lemma {:induction false} ExponentString(m: nat, k: nat)
    ensures var v := Shift(m, k);
      StrToInt(NatString(m) + "e" + NatString(k)) == if v >= DoubleOverflow then 0 else Cap(v)
  {
    var d, e := NatString(m), NatString(k);
    var t := d + ("e" + e);
    assert NatString(m) + "e" + NatString(k) == t;
    DigitsStartNumber(d, "e" + e);
    ExponentOf(e, k);
    WholeNumberPrefix(d, "e" + e);
    NatStringValue(m);
    NonNegativeReading(t, Numeric(false, m, k));
  }

  /** "e" and the spelling of k is the exponent k. */
  lemma ExponentOf(e: string, k: nat)
    requires e == NatString(k)
    ensures Exponent("e" + e) == k
  {
    assert ("e" + e)[1..] == e;
    DigitsAreTheirOwnPrefix(e);
    NatStringValue(k);
  }

  /** A string that starts with a non-negative number reads as 0 when the
      number overflows a double and as its saturated integer part otherwise. */
  lemma NonNegativeReading(t: string, x: Numeric)
    requires SkipSpace(t) == t && NumericPrefix(t) == Some(x)
    requires !x.negative
    ensures StrToInt(t) == if Overflows(x) then 0 else Cap(Magnitude(x))
  {
  }

  /** "1e3" is a thousand to `intval`, not 1. */
  lemma ThousandInExponentForm()
    ensures StrToInt("1e3") == 1000
  {
    assert NatString(1) == "1" && NatString(3) == "3";
    assert "1e3" == NatString(1) + "e" + NatString(3);
    ExponentString(1, 3);
  }

  /** Dropping the last `|f|` digits of `w + f` leaves the value of `w`. */
  lemma {:induction false} UnshiftDropsDigits(w: string, f: string)
    requires AllDigits(w) && AllDigits(f)
    ensures AllDigits(w + f)
    ensures Unshift(DigitsValue(w + f), |f|) == DigitsValue(w)
    ensures DigitsValue(w + f) < Shift(DigitsValue(w) + 1, |f|)
    decreases |f|
  {
    assert AllDigits(w + f);
    if |f| == 0 {
      assert w + f == w;
    } else {
      var g := f[..|f| - 1];
      assert (w + f)[..|w + f| - 1] == w + g;
      assert (w + f)[|w + f| - 1] == f[|f| - 1];
      UnshiftDropsDigits(w, g);
    }
  }

  /** Appending zeros keeps order. */
  lemma {:induction false} ShiftMonotone(a: nat, b: nat, k: nat)
    requires a <= b
    ensures Shift(a, k) <= Shift(b, k)
    decreases k
  {
    if k > 0 {
      ShiftMonotone(a, b, k - 1);
    }
  }

  /** Digits, a point and more digits, with nothing after, are read as
      those digits scaled down by the fraction's length. */
  lemma {:induction false} FractionPrefix(d: string, f: string)
    requires |d| > 0 && AllDigits(d) && AllDigits(f)
    ensures AllDigits(d + f)
    ensures NumericPrefix(d + ("." + f)) == Some(Numeric(false, DigitsValue(d + f), 0 - |f|))
  {
    var t := d + ("." + f);
    assert AllDigits(d + f);
    assert t[0] == d[0] && t[0] != '-' && t[0] != '+';
    LeadingDigitsStop(d, "." + f);
    assert t[|d|..] == "." + f;
    assert ("." + f)[1..] == f;
    DigitsAreTheirOwnPrefix(f);
    assert ("." + f)[1 + |f|..] == "";
  }

  /** `intval` drops a fraction: "<m>.<digits>" reads as m. */
  lemma {:induction false} FractionTruncated(m: nat, f: string)
    requires m <= MaxInt && AllDigits(f)
    ensures StrToInt(NatString(m) + "." + f) == m
  {
    var d := NatString(m);
    var t := d + ("." + f);
    assert NatString(m) + "." + f == t;
    DigitsStartNumber(d, "." + f);
    FractionPrefix(d, f);
    var x := FractionNumber(m, f);
    NonNegativeReading(t, x);
  }

  /** A string that starts with a digit has no leading whitespace. */
  lemma DigitsStartNumber(d: string, rest: string)
    requires |d| > 0 && AllDigits(d)
    ensures SkipSpace(d + rest) == d + rest
  {
    assert (d + rest)[0] == d[0];
  }

  /** The number "<m>.<f>" stands for: no overflow, integer part m. */
  lemma {:induction false} FractionNumber(m: nat, f: string) returns (x: Numeric)
    requires m <= MaxInt && AllDigits(f)
    ensures AllDigits(NatString(m) + f)
    ensures x == Numeric(false, DigitsValue(NatString(m) + f), 0 - |f|)
    ensures !Overflows(x) && Magnitude(x) == m
  {
    var d := NatString(m);
    UnshiftDropsDigits(d, f);
    x := Numeric(false, DigitsValue(d + f), 0 - |f|);
    NatStringValue(m);
    ShiftMonotone(m + 1, DoubleOverflow, |f|);
  }

  /** The characters PHP `trim()` strips: space, \t, \n, \r, \0 and \v. */
  predicate IsTrimmed(c: char) {
    c == ' ' || c == '\t' || c == '\n' || c == '\r' || c == '\0' || c == '\U{B}'
  }

  function TrimLeft(s: string): (r: string)
    ensures |r| <= |s| && r == s[|s| - |r|..]
    ensures |r| > 0 ==> !IsTrimmed(r[0])
    decreases |s|
  {
    if |s| > 0 && IsTrimmed(s[0]) then TrimLeft(s[1..]) else s
  }

  function TrimRight(s: string): (r: string)
    ensures |r| <= |s| && r == s[..|r|]
    ensures |r| > 0 ==> !IsTrimmed(r[|r| - 1])
    decreases |s|
  {
    if |s| > 0 && IsTrimmed(s[|s| - 1]) then TrimRight(s[..|s| - 1]) else s
  }

  /** PHP `trim()`: `s` without the strippable characters at either end. */
  function Trim(s: string): (r: string)
    ensures |r| <= |s|
    ensures |r| > 0 ==> !IsTrimmed(r[0]) && !IsTrimmed(r[|r| - 1])
  {
    TrimRight(TrimLeft(s))
  }

  /** PHP `explode()` with a one-character delimiter: the pieces between
      delimiters, always at least one (possibly empty) piece. */
  function Explode(s: string, sep: char): (r: seq<string>)
    ensures |r| >= 1
    decreases |s|
  {
    if |s| == 0 then [""]
    else if s[0] == sep then [""] + Explode(s[1..], sep)
    else
      var rest := Explode(s[1..], sep);
      [[s[0]] + rest[0]] + rest[1..]
  }

  /** PHP `implode()`: the pieces with the delimiter between them. */
  function Join(parts: seq<string>, sep: char): string
    decreases |parts|
  {
    if |parts| == 0 then ""
    else if |parts| == 1 then parts[0]
    else parts[0] + [sep] + Join(parts[1..], sep)
  }

  /** A piece free of the delimiter followed by the delimiter splits off
      as exactly that piece. */
  lemma {:induction false} ExplodePiece(p: string, sep: char, rest: string)
    requires sep !in p
    ensures Explode(p + [sep] + rest, sep) == [p] + Explode(rest, sep)
    decreases |p|
  {
    var s := p + [sep] + rest;
    if |p| == 0 {
      assert s == [sep] + rest;
      assert s[1..] == rest;
    } else {
      assert s[0] == p[0];
      assert s[1..] == p[1..] + [sep] + rest;
      ExplodePiece(p[1..], sep, rest);
      assert [p[0]] + p[1..] == p;
    }
  }

  /** A string free of the delimiter explodes into itself alone. */
  lemma {:induction false} ExplodeWhole(p: string, sep: char)
    requires sep !in p
    ensures Explode(p, sep) == [p]
    decreases |p|
  {
    if |p| > 0 {
      ExplodeWhole(p[1..], sep);
      assert [p[0]] + p[1..] == p;
    }
  }

  /** Exploding an implode of delimiter-free pieces gives the pieces back. */
  lemma {:induction false} ExplodeJoin(parts: seq<string>, sep: char)
    requires |parts| >= 1
    requires forall i :: 0 <= i < |parts| ==> sep !in parts[i]
    ensures Explode(Join(parts, sep), sep) == parts
    decreases |parts|
  {
    if |parts| == 1 {
      ExplodeWhole(parts[0], sep);
    } else {
      ExplodeJoin(parts[1..], sep);
      ExplodePiece(parts[0], sep, Join(parts[1..], sep));
      assert [parts[0]] + parts[1..] == parts;
    }
  }

  /** A string with nothing strippable at either end is its own trim. */
  lemma TrimUntouched(s: string)
    requires |s| > 0 ==> !IsTrimmed(s[0]) && !IsTrimmed(s[|s| - 1])
    ensures Trim(s) == s
  {
  }
}
