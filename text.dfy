/** The string primitives the handlers rely on, written out: JavaScript's
    String.prototype.split and startsWith, Number.prototype.toString for naturals,
    JavaScript's Number() on numeric strings, and the validator.js predicates
    isHexadecimal, isMongoId and isNumeric. */
module Text {
  import opened Common

  /** The index of the first occurrence of c in s. */
  function IndexOf(s: string, c: char): (r: Option<nat>)
    ensures r.Some? ==> r.value < |s| && s[r.value] == c && c !in s[..r.value]
    ensures r.None? <==> c !in s
  {
    if |s| == 0 then None
    else if s[0] == c then Some(0)
    else match IndexOf(s[1..], c)
      case None => None
      case Some(i) => Some(i + 1)
  }

  /** s.split(sep) for a one-character separator and no limit: the maximal runs of
      s between occurrences of sep, in order (so there is always at least one). */
  function Split(s: string, sep: char): (parts: seq<string>)
    ensures |parts| >= 1
    ensures forall i :: 0 <= i < |parts| ==> sep !in parts[i]
    decreases |s|
  {
    match IndexOf(s, sep)
    case None => [s]
    case Some(i) => [s[..i]] + Split(s[i + 1..], sep)
  }

  /** parts.join(sep): the inverse of Split. */
  function Join(parts: seq<string>, sep: char): string
  {
    if |parts| == 0 then ""
    else if |parts| == 1 then parts[0]
    else parts[0] + [sep] + Join(parts[1..], sep)
  }

  /** Splitting loses nothing: joining the parts with the separator gives back s. */
  lemma {:induction false} JoinSplit(s: string, sep: char)
    ensures Join(Split(s, sep), sep) == s
    decreases |s|
  {
    match IndexOf(s, sep)
    case None =>
    case Some(i) =>
      var rest := Split(s[i + 1..], sep);
      var parts := [s[..i]] + rest;
      assert Split(s, sep) == parts;
      assert parts[1..] == rest;
      calc {
        Join(parts, sep);
        s[..i] + [sep] + Join(rest, sep);
        { JoinSplit(s[i + 1..], sep); }
        s[..i] + [sep] + s[i + 1..];
        s;
      }
  }

  /** The first separator of p + [sep] + rest is the one after p when p has none. */
  lemma {:induction false} IndexOfAfter(p: string, sep: char, rest: string)
    requires sep !in p
    ensures IndexOf(p + [sep] + rest, sep) == Some(|p|)
    decreases |p|
  {
    if |p| > 0 {
      assert (p + [sep] + rest)[1..] == p[1..] + [sep] + rest;
      IndexOfAfter(p[1..], sep, rest);
    }
  }

  /** Splitting the join of a non-empty list of separator-free strings gives the list back. */
  lemma {:induction false} SplitJoin(parts: seq<string>, sep: char)
    requires |parts| >= 1
    requires forall i :: 0 <= i < |parts| ==> sep !in parts[i]
    ensures Split(Join(parts, sep), sep) == parts
    decreases |parts|
  {
    if |parts| > 1 {
      var p := parts[0];
      var tail := Join(parts[1..], sep);
      var s := p + [sep] + tail;
      assert Join(parts, sep) == s;
      IndexOfAfter(p, sep, tail);
      assert s[..|p|] == p && s[|p| + 1..] == tail;
      SplitJoin(parts[1..], sep);
      assert Split(s, sep) == [p] + Split(tail, sep);
      assert parts == [p] + parts[1..];
    } else {
      assert IndexOf(parts[0], sep) == None;
    }
  }

  /** s.startsWith(p): each character of p is the character of s at the same index. */
  function StartsWith(s: string, p: string): (r: bool)
    ensures r <==> |p| <= |s| && forall i :: 0 <= i < |p| ==> s[i] == p[i]
    ensures r ==> s == p + s[|p|..]
  {
    |p| <= |s| && s[..|p|] == p
  }

  /** The length validator.js isLength measures: the number of characters, not
      counting the variation selectors U+FE0E and U+FE0F. */
  function VisibleLength(s: string): (n: nat)
    ensures n <= |s|
    ensures (forall i :: 0 <= i < |s| ==> s[i] != '\U{FE0E}' && s[i] != '\U{FE0F}') ==> n == |s|
  {
    if |s| == 0 then 0
    else VisibleLength(s[..|s| - 1]) + (if s[|s| - 1] == '\U{FE0E}' || s[|s| - 1] == '\U{FE0F}' then 0 else 1)
  }

  predicate IsDigit(c: char)
  {
    '0' <= c <= '9'
  }

  predicate AllDigits(s: string)
  {
    forall i :: 0 <= i < |s| ==> IsDigit(s[i])
  }

  predicate IsHexDigit(c: char)
  {
    '0' <= c <= '9' || 'a' <= c <= 'f' || 'A' <= c <= 'F'
  }

  /** validator.js isHexadecimal: an optional "0x" or "0h" prefix (either case), then
      at least one hexadecimal digit. Every non-empty string of hexadecimal digits
      passes, and nothing shorter than one character does. */
  function IsHexadecimal(s: string): (r: bool)
    ensures |s| > 0 && (forall i :: 0 <= i < |s| ==> IsHexDigit(s[i])) ==> r
    ensures r ==> |s| > 0 && forall i :: 2 <= i < |s| ==> IsHexDigit(s[i])
  {
    var digits := if |s| >= 2 && s[0] == '0' && s[1] in "xXhH" then s[2..] else s;
    |digits| > 0 && forall i :: 0 <= i < |digits| ==> IsHexDigit(digits[i])
  }

  /** validator.js isMongoId: a hexadecimal string of exactly 24 characters. */
  function IsMongoId(s: string): (r: bool)
    ensures r ==> |s| == 24 && forall i :: 2 <= i < |s| ==> IsHexDigit(s[i])
    ensures |s| == 24 && (forall i :: 0 <= i < |s| ==> IsHexDigit(s[i])) ==> r
  {
    IsHexadecimal(s) && |s| == 24
  }

  /** s without one leading '+' or '-'. */
  function Unsigned(s: string): (u: string)
    ensures |u| <= |s|
  {
    if |s| > 0 && (s[0] == '+' || s[0] == '-') then s[1..] else s
  }

  /** validator.js isNumeric (default options): an optional sign, optionally digits
      followed by one '.', then at least one digit. So a numeric string ends in a
      digit, and every non-empty string of digits is numeric. */
  function IsNumeric(s: string): (r: bool)
    ensures r ==> |s| > 0 && IsDigit(s[|s| - 1])
    ensures |s| > 0 && AllDigits(s) ==> r
  {
    var u := Unsigned(s);
    match IndexOf(u, '.')
    case None => |u| > 0 && AllDigits(u)
    case Some(i) => AllDigits(u[..i]) && |u| > i + 1 && AllDigits(u[i + 1..])
  }

  function Pow10(n: nat): (p: nat)
    ensures p >= 1
  {
    if n == 0 then 1 else 10 * Pow10(n - 1)
  }

  /** The natural number a string of decimal digits denotes ("" denotes 0). */
  function DigitsValue(s: string): nat
    requires AllDigits(s)
  {
    if |s| == 0 then 0 else 10 * DigitsValue(s[..|s| - 1]) + (s[|s| - 1] as int - '0' as int)
  }

  function DigitChar(d: nat): (c: char)
    requires d < 10
    ensures IsDigit(c) && c as int - '0' as int == d
  {
    ('0' as int + d) as char
  }

  /** n.toString() for a natural number: its decimal digits, most significant first. */
  function DecimalString(n: nat): (s: string)
    ensures |s| > 0 && AllDigits(s)
    decreases n
  {
    if n < 10 then [DigitChar(n)] else DecimalString(n / 10) + [DigitChar(n % 10)]
  }

  /** Reading the decimal digits of n back gives n. */
  lemma {:induction false} DecimalStringValue(n: nat)
    ensures DigitsValue(DecimalString(n)) == n
    decreases n
  {
    if n >= 10 {
      DecimalStringValue(n / 10);
      var s := DecimalString(n);
      assert s[..|s| - 1] == DecimalString(n / 10);
    }
  }

  /** A number in [10^k, 10^(k+1)) has k + 1 decimal digits. */
  lemma {:induction false} DecimalStringLength(n: nat, k: nat)
    requires Pow10(k) <= n < Pow10(k + 1)
    ensures |DecimalString(n)| == k + 1
    decreases n
  {
    if k > 0 {
      assert 10 <= n;
      DecimalStringLength(n / 10, k - 1);
    }
  }

  /** JavaScript's Number(s) on the strings this model distinguishes: the empty string
      is 0, a numeric string (IsNumeric) is its exact decimal value, anything else is
      NaN (None). */
  function JsNumber(s: string): (r: Option<real>)
    ensures r.Some? <==> s == "" || IsNumeric(s)
  {
    if s == "" then Some(0.0)
    else if !IsNumeric(s) then None
    else
      var u := Unsigned(s);
      var magnitude :=
        match IndexOf(u, '.')
        case None => DigitsValue(u) as real
        case Some(i) =>
          DigitsValue(u[..i]) as real + DigitsValue(u[i + 1..]) as real / Pow10(|u| - i - 1) as real;
      Some(if s[0] == '-' then -magnitude else magnitude)
  }

  /** Number(n.toString()) == n for naturals. */
  lemma JsNumberOfDecimalString(n: nat)
    ensures JsNumber(DecimalString(n)) == Some(n as real)
  {
    var s := DecimalString(n);
    assert Unsigned(s) == s;
    assert IndexOf(s, '.') == None;
    DecimalStringValue(n);
  }
}
