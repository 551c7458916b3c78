/** The JavaScript idioms the widget scripts apply to DOM values:
    `parseInt(..) || d`, `String.prototype.split`/`includes`/`trim`,
    `toFixed(2)` on integer cents, and the currency-marker regular
    expression `/[^\d.,\s]+$/`. */
module Js {
  import opened Common
  import opened Decimal

  /** `parseInt(attr) || d`, where `v` is the parsed attribute and `None`
      stands for NaN: NaN and 0 are falsy, so both fall back to `d`. */
  function OrDefault(v: Option<int>, d: int): int {
    match v
    case Some(n) => if n == 0 then d else n
    case None => d
  }

  /** The characters of the regular-expression class `\s` (and of the
      set `trim()` removes): ECMAScript white space and line terminators. */
  predicate IsSpace(c: char) {
    c == ' ' || c == '\t' || c == '\n' || c == '\r' || c == '\U{B}' || c == '\U{C}'
    || c == '\U{A0}' || c == '\U{1680}' || ('\U{2000}' <= c <= '\U{200A}')
    || c == '\U{2028}' || c == '\U{2029}' || c == '\U{202F}' || c == '\U{205F}'
    || c == '\U{3000}' || c == '\U{FEFF}'
  }

  function TrimStart(s: string): (r: string)
    ensures |r| <= |s| && r == s[|s| - |r|..]
    ensures |r| > 0 ==> !IsSpace(r[0])
    decreases |s|
  {
    if |s| > 0 && IsSpace(s[0]) then TrimStart(s[1..]) else s
  }

  function TrimEnd(s: string): (r: string)
    ensures |r| <= |s| && r == s[..|r|]
    ensures |r| > 0 ==> !IsSpace(r[|r| - 1])
    decreases |s|
  {
    if |s| > 0 && IsSpace(s[|s| - 1]) then TrimEnd(s[..|s| - 1]) else s
  }

  /** `s.trim()`. */
  function Trim(s: string): (r: string)
    ensures |r| <= |s|
    ensures |r| > 0 ==> !IsSpace(r[0]) && !IsSpace(r[|r| - 1])
  {
    TrimEnd(TrimStart(s))
  }

  /** White space in front of a string that does not start with white
      space is exactly what `trimStart` removes. */
  lemma {:induction false} TrimStartSpaces(ws: string, x: string)
    requires forall i :: 0 <= i < |ws| ==> IsSpace(ws[i])
    requires |x| > 0 && !IsSpace(x[0])
    ensures TrimStart(ws + x) == x
    decreases |ws|
  {
    if |ws| == 0 {
      assert ws + x == x;
    } else {
      assert (ws + x)[1..] == ws[1..] + x;
      TrimStartSpaces(ws[1..], x);
    }
  }

  /** `parseInt(s)` with no radix, on decimal input: leading white space,
      an optional sign, then the longest run of digits; NaN (`None`) when
      there is no digit. */
  function ParseInt(s: string): Option<int> {
    ParseSigned(TrimStart(s))
  }

  /** `parseInt` once the leading white space is gone. */
  function ParseSigned(t: string): Option<int> {
    var negative := |t| > 0 && t[0] == '-';
    var body := if |t| > 0 && (t[0] == '-' || t[0] == '+') then t[1..] else t;
    var d := LeadingDigits(body);
    if |d| == 0 then None
    else if negative then Some(0 - DigitsValue(d) as int)
    else Some(DigitsValue(d))
  }

  /** A number written out in decimal, with any white space in front and
      anything after it that does not continue the digits (a unit such as
      "px", more white space), parses back to that number. */
  lemma ParseIntOfIntString(ws: string, n: int, suffix: string)
    requires forall i :: 0 <= i < |ws| ==> IsSpace(ws[i])
    requires |suffix| == 0 || !IsDigit(suffix[0])
    ensures ParseInt(ws + IntString(n) + suffix) == Some(n)
  {
    var t := IntString(n) + suffix;
    assert ws + IntString(n) + suffix == ws + t;
    assert t[0] == IntString(n)[0];
    TrimStartSpaces(ws, t);
    ParseSignedNumber(n, suffix);
  }

  lemma ParseSignedNumber(n: int, suffix: string)
    requires |suffix| == 0 || !IsDigit(suffix[0])
    ensures ParseSigned(IntString(n) + suffix) == Some(n)
  {
    if n < 0 {
      ParseSignedNegative(-n, suffix);
      assert IntString(n) == "-" + NatString(-n);
    } else {
      ParseSignedNatural(n, suffix);
    }
  }

  /** A minus sign followed by digits reads as the negated number. */
  lemma ParseSignedNegative(m: nat, suffix: string)
    requires m > 0
    requires |suffix| == 0 || !IsDigit(suffix[0])
    ensures ParseSigned("-" + NatString(m) + suffix) == Some(-(m as int))
  {
    var d := NatString(m);
    var t := "-" + d + suffix;
    assert t[0] == '-';
    assert t[1..] == d + suffix;
    LeadingDigitsStop(d, suffix);
    NatStringValue(m);
  }

  /** Digits without a sign read as themselves. */
  lemma ParseSignedNatural(n: nat, suffix: string)
    requires |suffix| == 0 || !IsDigit(suffix[0])
    ensures ParseSigned(NatString(n) + suffix) == Some(n)
  {
    var x := NatString(n);
    var t := x + suffix;
    assert t[0] == x[0] && IsDigit(x[0]);
    LeadingDigitsStop(x, suffix);
    NatStringValue(n);
  }

  /** `sep` occurs in `s` starting at index `j`. */
  predicate OccursAt(s: string, sep: string, j: int) {
    0 <= j && j + |sep| <= |s| && s[j..j + |sep|] == sep
  }

  lemma OccursShift(s: string, sep: string, j: nat)
    requires |s| > 0
    ensures OccursAt(s, sep, j + 1) <==> OccursAt(s[1..], sep, j)
  {
    if j + 1 + |sep| <= |s| {
      assert s[1..][j..j + |sep|] == s[j + 1..j + 1 + |sep|];
    }
  }

  /** `s.indexOf(sep)`: the first index where `sep` occurs, if any. */
  function IndexOf(s: string, sep: string): (r: Option<nat>)
    requires |sep| > 0
    ensures r.Some? ==> OccursAt(s, sep, r.value)
    ensures r.Some? ==> forall j :: 0 <= j < r.value ==> !OccursAt(s, sep, j)
    ensures r.None? ==> forall j :: !OccursAt(s, sep, j)
    decreases |s|
  {
    if |s| < |sep| then None
    else if s[..|sep|] == sep then
      assert OccursAt(s, sep, 0);
      Some(0)
    else
      var rest := IndexOf(s[1..], sep);
      forall j | 1 <= j
        ensures OccursAt(s, sep, j) <==> OccursAt(s[1..], sep, j - 1)
      {
        OccursShift(s, sep, j - 1);
      }
      assert !OccursAt(s, sep, 0);
      match rest
      case None => None
      case Some(j) => Some(j + 1)
  }

  /** `s.includes(sep)`. */
  predicate Includes(s: string, sep: string)
    requires |sep| > 0
  {
    IndexOf(s, sep).Some?
  }

  /** `s.split(sep)` for a non-empty separator: the pieces between the
      occurrences of `sep`, scanning from the left. */
  function Split(s: string, sep: string): (r: seq<string>)
    requires |sep| > 0
    ensures |r| >= 1
    decreases |s|
  {
    match IndexOf(s, sep)
    case None => [s]
    case Some(i) => [s[..i]] + Split(s[i + |sep|..], sep)
  }

  /** A string that never contains the first character of `sep` does not
      contain `sep` and splits into itself alone. */
  lemma SplitWithoutSeparator(s: string, sep: string)
    requires |sep| > 0
    requires sep[0] !in s
    ensures IndexOf(s, sep).None?
    ensures Split(s, sep) == [s]
  {
  }

  /** A range written as "start to end" by the date picker splits back
      into its two halves when neither half contains a space. */
  lemma SplitRange(a: string, b: string)
    requires ' ' !in a && ' ' !in b
    ensures Includes(a + " to " + b, " to ")
    ensures Split(a + " to " + b, " to ") == [a, b]
  {
    var sep := " to ";
    var s := a + sep + b;
    assert OccursAt(s, sep, |a|) by {
      assert s[|a|..|a| + |sep|] == sep;
    }
    var i := IndexOf(s, sep).value;
    forall j | 0 <= j < |a|
      ensures !OccursAt(s, sep, j)
    {
      assert s[j] == a[j];
      if j + |sep| <= |s| {
        assert s[j..j + |sep|][0] == s[j];
      }
    }
    assert i == |a|;
    assert s[i + |sep|..] == b;
    SplitWithoutSeparator(b, sep);
    assert s[..i] == a;
  }

  /** A string with no white space at either end is its own trim. */
  lemma TrimUntouched(s: string)
    requires |s| > 0 ==> !IsSpace(s[0]) && !IsSpace(s[|s| - 1])
    ensures Trim(s) == s
  {
  }

  /** The characters `\d`, `.`, `,` and `\s` of the currency regex's
      negated class: what may appear inside a formatted amount. */
  predicate IsAmountChar(c: char) {
    IsDigit(c) || c == '.' || c == ',' || IsSpace(c)
  }

  /** `text.match(/[^\d.,\s]+$/)?.[0] || ''`: the longest run of
      non-amount characters that ends the text (empty when the text ends
      with a digit, a separator or white space). */
  function TrailingCurrency(t: string): (r: string)
    ensures |r| <= |t| && r == t[|t| - |r|..]
    ensures forall i :: 0 <= i < |r| ==> !IsAmountChar(r[i])
    ensures forall j :: |t| - |r| <= j < |t| ==> !IsAmountChar(t[j])
    ensures |r| == |t| || IsAmountChar(t[|t| - |r| - 1])
    decreases |t|
  {
    if |t| == 0 || IsAmountChar(t[|t| - 1]) then ""
    else TrailingCurrency(t[..|t| - 1]) + [t[|t| - 1]]
  }

  /** Whatever precedes it, a run of non-amount characters placed after a
      space is exactly what the currency regex picks out again. */
  lemma {:induction false} CurrencyAfterSpace(x: string, sym: string)
    requires forall i :: 0 <= i < |sym| ==> !IsAmountChar(sym[i])
    ensures TrailingCurrency(x + " " + sym) == sym
    decreases |sym|
  {
    var t := x + " " + sym;
    if |sym| == 0 {
      assert t[|t| - 1] == ' ';
    } else {
      var init := sym[..|sym| - 1];
      assert t[..|t| - 1] == x + " " + init;
      assert t[|t| - 1] == sym[|sym| - 1];
      CurrencyAfterSpace(x, init);
      assert sym == init + [sym[|sym| - 1]];
    }
  }

  /** `(cents / 100).toFixed(2)` for an amount held in integer cents. */
  function FormatCents(c: int): string {
    var a := if c < 0 then -c else c;
    var frac := a % 100;
    (if c < 0 then "-" else "") + NatString(a / 100) + "." + [DigitChar(frac / 10), DigitChar(frac % 10)]
  }

  /** `total.toFixed(2) + ' ' + currency`: how both scripts render a total. */
  function RenderTotal(cents: int, currency: string): string {
    FormatCents(cents) + " " + currency
  }
}
