/**
 * Python's `int(text)` and `int(text, 16)` on text, the conversion the watcher
 * applies to wei values, block numbers, block timestamps and the BTC tip height.
 *
 * Accepted form: surrounding whitespace (`IsIntSpace`), an optional sign, for base 16 an
 * optional `0x`/`0X` prefix that may be followed by one underscore, then
 * digits of the base with single underscores between digits. Anything else
 * raises ValueError, modelled as `None`.
 */
module PyInt {
  import opened Wrappers

  datatype Base = Dec | Hex

  function Radix(base: Base): nat {
    if base == Dec then 10 else 16
  }

  /** The characters `str.isspace()` accepts: what `str.strip()` removes. */
  predicate IsSpace(c: char) {
    || ('\t' <= c <= '\r')
    || ('\U{1C}' <= c <= ' ')
    || c == '\U{85}' || c == '\U{A0}' || c == '\U{1680}'
    || ('\U{2000}' <= c <= '\U{200A}')
    || c == '\U{2028}' || c == '\U{2029}' || c == '\U{202F}' || c == '\U{205F}' || c == '\U{3000}'
  }

  /**
   * The whitespace `int()` ignores at both ends of its text. Below U+007F it
   * skips only tab, line feed, vertical tab, form feed, carriage return and
   * space; the separators U+001C to U+001F, which `str.isspace()` accepts, are
   * kept and then rejected. Wider whitespace counts as a space.
   */
  predicate IsIntSpace(c: char) {
    IsSpace(c) && !('\U{1C}' <= c <= '\U{1F}')
  }

  /** Value of an ASCII letter-or-digit as a digit in any base up to 36; 36 for anything else. */
  function DigitValue(c: char): nat {
    if '0' <= c <= '9' then c as int - '0' as int
    else if 'a' <= c <= 'z' then c as int - 'a' as int + 10
    else if 'A' <= c <= 'Z' then c as int - 'A' as int + 10
    else 36
  }

  predicate IsDigit(c: char, base: Base) {
    DigitValue(c) < Radix(base)
  }

  /** `s` without its leading characters of class `space`. */
  function StripLeft(s: string, space: char -> bool): string
    decreases |s|
  {
    if |s| > 0 && space(s[0]) then StripLeft(s[1..], space) else s
  }

  /** `s` without its trailing characters of class `space`. */
  function StripRight(s: string, space: char -> bool): string
    decreases |s|
  {
    if |s| > 0 && space(s[|s| - 1]) then StripRight(s[..|s| - 1], space) else s
  }

  /** Python's `str.strip()` with no argument. */
  function Strip(s: string): string {
    StripRight(StripLeft(s, IsSpace), IsSpace)
  }

  /** The text `int()` parses once it has skipped the whitespace at both ends. */
  function IntTrim(s: string): string {
    StripRight(StripLeft(s, IsIntSpace), IsIntSpace)
  }

  /**
   * The value of `w` read as digits of `base` with single underscores between
   * digits (`digit ('_'? digit)*`), or `None` when `w` is not of that form.
   */
  function DigitsValue(w: string, base: Base): Option<nat>
    decreases |w|
  {
    if |w| == 0 || !IsDigit(w[|w| - 1], base) then None
    else if |w| == 1 then Some(DigitValue(w[0]))
    else
      var p := w[..|w| - 1];
      var q := if p[|p| - 1] == '_' then p[..|p| - 1] else p;
      match DigitsValue(q, base)
      case None => None
      case Some(v) => Some(v * Radix(base) + DigitValue(w[|w| - 1]))
  }

  /** `true` when `u` starts with the base-16 prefix `0x` or `0X`. */
  predicate HasHexPrefix(u: string) {
    |u| >= 2 && u[0] == '0' && (u[1] == 'x' || u[1] == 'X')
  }

  /** Python's `int(s, 10)` (that is, `int(s)`) or `int(s, 16)` on a string `s`. */
  function ParseInt(s: string, base: Base): (r: Option<int>) {
    var t := IntTrim(s);
    var signed := |t| > 0 && (t[0] == '+' || t[0] == '-');
    var u := if signed then t[1..] else t;
    var w := if base == Hex && HasHexPrefix(u) then (if |u| >= 3 && u[2] == '_' then u[3..] else u[2..]) else u;
    match DigitsValue(w, base)
    case None => None
    case Some(v) =>
      var i: int := if signed && t[0] == '-' then -(v as int) else v;
      Some(i)
  }

  /** The lower-case digit character for `d`. */
  function DigitChar(d: nat): (c: char)
    requires d < 16
    ensures DigitValue(c) == d
  {
    if d < 10 then ('0' as int + d) as char else ('a' as int + d - 10) as char
  }

  /** The shortest digit string of `n` in `base`, as Python's `str(n)` or `hex(n)[2:]` print it. */
  function Digits(n: nat, base: Base): (r: string)
    ensures |r| >= 1
    ensures forall i | 0 <= i < |r| :: IsDigit(r[i], base)
    decreases n
  {
    if n < Radix(base) then [DigitChar(n)]
    else Digits(n / Radix(base), base) + [DigitChar(n % Radix(base))]
  }

  /** The text Python's `str(i)` gives for an integer `i`. */
  function DecString(i: int): string {
    if i < 0 then "-" + Digits(-i, Dec) else Digits(i, Dec)
  }

  /** Reading back the digits of `n` gives `n`. */
  lemma {:induction false} DigitsRoundTrip(n: nat, base: Base)
    ensures DigitsValue(Digits(n, base), base) == Some(n)
    decreases n
  {
    var r := Radix(base);
    if n >= r {
      var d := Digits(n / r, base);
      var w := Digits(n, base);
      assert w == d + [DigitChar(n % r)];
      assert w[..|w| - 1] == d;
      assert d[|d| - 1] != '_' by { assert IsDigit(d[|d| - 1], base); }
      DigitsRoundTrip(n / r, base);
    }
  }

  lemma IntTrimUnchanged(s: string)
    requires |s| > 0 && !IsIntSpace(s[0]) && !IsIntSpace(s[|s| - 1])
    ensures IntTrim(s) == s
  {
  }

  /** `int("0x" + hex digits of n, 16) == n`: the hexadecimal wire form reads back. */
  lemma HexRoundTrip(n: nat)
    ensures ParseInt("0x" + Digits(n, Hex), Hex) == Some(n)
  {
    var d := Digits(n, Hex);
    var s := "0x" + d;
    assert IsDigit(d[0], Hex) && IsDigit(d[|d| - 1], Hex);
    assert s[|s| - 1] == d[|d| - 1];
    IntTrimUnchanged(s);
    assert s[2..] == d;
    DigitsRoundTrip(n, Hex);
  }

  /** `int(str(i)) == i` for every integer, negative ones included. */
  lemma DecRoundTrip(i: int)
    ensures ParseInt(DecString(i), Dec) == Some(i)
  {
    if i < 0 {
      NegativeDecRoundTrip(-i);
    } else {
      NonNegativeDecRoundTrip(i);
    }
  }

  lemma NonNegativeDecRoundTrip(n: nat)
    ensures ParseInt(Digits(n, Dec), Dec) == Some(n)
  {
    var d := Digits(n, Dec);
    assert IsDigit(d[0], Dec) && IsDigit(d[|d| - 1], Dec);
    IntTrimUnchanged(d);
    DigitsRoundTrip(n, Dec);
  }

  lemma NegativeDecRoundTrip(n: nat)
    requires n > 0
    ensures ParseInt("-" + Digits(n, Dec), Dec) == Some(-(n as int))
  {
    var d := Digits(n, Dec);
    var s := "-" + d;
    assert IsDigit(d[|d| - 1], Dec) && s[|s| - 1] == d[|d| - 1];
    IntTrimUnchanged(s);
    assert s[1..] == d;
    DigitsRoundTrip(n, Dec);
  }

  /** A digit string accepted by `DigitsValue` holds only digits of the base and underscores. */
  lemma {:induction false} DigitsValueCharset(w: string, base: Base, k: nat)
    requires DigitsValue(w, base).Some?
    requires k < |w|
    ensures IsDigit(w[k], base) || w[k] == '_'
    decreases |w|
  {
    if |w| > 1 && k < |w| - 1 {
      var p := w[..|w| - 1];
      var q := if p[|p| - 1] == '_' then p[..|p| - 1] else p;
      if k < |q| {
        DigitsValueCharset(q, base, k);
        assert q[k] == w[k];
      }
    }
  }

  /**
   * `int()` does not skip the separator U+001C that `str.strip()` removes:
   * `int("\x1c5")` raises, while `int("\x1c5".strip())` is 5.
   */
  lemma SeparatorNotSkipped()
    ensures ParseInt("\U{1C}5", Dec) == None
    ensures ParseInt(Strip("\U{1C}5"), Dec) == Some(5)
  {
    var s := "\U{1C}5";
    IntTrimUnchanged(s);
    assert s[..1] == "\U{1C}";
    assert StripLeft(s, IsSpace) == "5" by { assert s[1..] == "5"; }
    IntTrimUnchanged("5");
  }
}
