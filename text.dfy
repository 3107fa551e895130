/**
 * Strings as the pages use them: JavaScript's `trim()` (abstracted as removing
 * characters of a fixed whitespace set from both ends), blankness, and the
 * decimal rendering used by template literals such as `Result ${i + 1}`.
 */
module Text {

  /**
   * The characters `String.prototype.trim` removes: the ECMAScript WhiteSpace
   * code points (TAB, VT, FF, ZWNBSP and the Unicode space separators) and the
   * LineTerminator code points (LF, CR, LS, PS).
   */
  predicate IsWhitespace(c: char) {
    || c == '\U{9}' || c == '\U{A}' || c == '\U{B}' || c == '\U{C}' || c == '\U{D}'
    || c == ' ' || c == '\U{A0}' || c == '\U{1680}'
    || ('\U{2000}' <= c <= '\U{200A}')
    || c == '\U{2028}' || c == '\U{2029}' || c == '\U{202F}' || c == '\U{205F}'
    || c == '\U{3000}' || c == '\U{FEFF}'
  }

  /** A string is blank when every character in it is whitespace. */
  predicate IsBlank(s: string) {
    forall i :: 0 <= i < |s| ==> IsWhitespace(s[i])
  }

  lemma BlankConcat(a: string, b: string)
    requires IsBlank(a) && IsBlank(b)
    ensures IsBlank(a + b)
  {
  }

  /** Drops leading whitespace. */
  function TrimStart(s: string): (r: string)
    ensures |r| <= |s| && r == s[|s| - |r|..]
    ensures IsBlank(s[..|s| - |r|])
    ensures r == [] || !IsWhitespace(r[0])
  {
    if s != [] && IsWhitespace(s[0]) then
      var r := TrimStart(s[1..]);
      assert s[..|s| - |r|] == [s[0]] + s[1..][..|s| - 1 - |r|];
      BlankConcat([s[0]], s[1..][..|s| - 1 - |r|]);
      r
    else s
  }

  /** Drops trailing whitespace. */
  function TrimEnd(s: string): (r: string)
    ensures |r| <= |s| && r == s[..|r|]
    ensures IsBlank(s[|r|..])
    ensures r == [] || !IsWhitespace(r[|r| - 1])
  {
    if s != [] && IsWhitespace(s[|s| - 1]) then
      var r := TrimEnd(s[..|s| - 1]);
      assert s[|r|..] == s[..|s| - 1][|r|..] + [s[|s| - 1]];
      BlankConcat(s[..|s| - 1][|r|..], [s[|s| - 1]]);
      r
    else s
  }

  /** `s.trim()`. */
  function Trim(s: string): string {
    TrimEnd(TrimStart(s))
  }

  /** `!s.trim()` holds exactly when `s` is blank. */
  lemma TrimEmptyIffBlank(s: string)
    ensures Trim(s) == [] <==> IsBlank(s)
  {
  }

  /** `strings.some(s => !s.trim())`. */
  function AnyTrimsEmpty(ss: seq<string>): (b: bool)
    ensures b <==> exists i :: 0 <= i < |ss| && IsBlank(ss[i])
  {
    if ss == [] then false
    else
      TrimEmptyIffBlank(ss[0]);
      Trim(ss[0]) == [] || AnyTrimsEmpty(ss[1..])
  }

  /** `strings.every(s => s.trim())`: every trimmed string is non-empty, hence truthy. */
  function EveryTrimsFilled(ss: seq<string>): (b: bool)
    ensures b <==> forall i :: 0 <= i < |ss| ==> !IsBlank(ss[i])
  {
    if ss == [] then true
    else
      TrimEmptyIffBlank(ss[0]);
      Trim(ss[0]) != [] && EveryTrimsFilled(ss[1..])
  }

  /** `some(!trim)` is exactly the negation of `every(trim)`. */
  lemma {:induction false} SomeBlankIsNotEveryFilled(ss: seq<string>)
    ensures AnyTrimsEmpty(ss) <==> !EveryTrimsFilled(ss)
  {
    if ss != [] {
      SomeBlankIsNotEveryFilled(ss[1..]);
    }
  }

  /**
   * The guard both creation pages apply before sending anything,
   * `!title.trim() || !hostName.trim() || items.some(s => !s.trim())`:
   * the title, the host name or some list entry is blank.
   */
  function HasBlankField(title: string, hostName: string, items: seq<string>): (b: bool)
    ensures b <==> IsBlank(title) || IsBlank(hostName) || exists i :: 0 <= i < |items| && IsBlank(items[i])
  {
    TrimEmptyIffBlank(title);
    TrimEmptyIffBlank(hostName);
    Trim(title) == [] || Trim(hostName) == [] || AnyTrimsEmpty(items)
  }

  /** The decimal digit for `d`. */
  function Digit(d: int): (c: char)
    requires 0 <= d < 10
    ensures '0' <= c <= '9' && c as int - '0' as int == d
  {
    ['0', '1', '2', '3', '4', '5', '6', '7', '8', '9'][d]
  }

  predicate IsDigits(s: string) {
    forall i :: 0 <= i < |s| ==> '0' <= s[i] <= '9'
  }

  /** The decimal rendering of `n`, as a template literal `${n}` renders it. */
  function NatToString(n: nat): (r: string)
    ensures |r| >= 1 && IsDigits(r)
    ensures n >= 10 <==> |r| >= 2
  {
    if n < 10 then [Digit(n)] else NatToString(n / 10) + [Digit(n % 10)]
  }

  /** The numeral's value: the inverse of `NatToString`. */
  function DigitsValue(s: string): (v: nat)
    requires IsDigits(s)
  {
    if s == [] then 0 else 10 * DigitsValue(s[..|s| - 1]) + (s[|s| - 1] as int - '0' as int)
  }

  lemma {:induction false} NatToStringRoundTrip(n: nat)
    ensures DigitsValue(NatToString(n)) == n
  {
    if n >= 10 {
      var s := NatToString(n);
      assert s[..|s| - 1] == NatToString(n / 10);
      NatToStringRoundTrip(n / 10);
    }
  }

  /** Distinct numbers render as distinct numerals. */
  lemma NatToStringInjective(a: nat, b: nat)
    requires NatToString(a) == NatToString(b)
    ensures a == b
  {
    NatToStringRoundTrip(a);
    NatToStringRoundTrip(b);
  }

  /** `Array(n).fill("").map((_, i) => `${prefix}${i + 1}`)`. */
  function DefaultLabels(prefix: string, n: nat): (r: seq<string>)
    ensures |r| == n
    ensures forall i :: 0 <= i < n ==> r[i] == prefix + NatToString(i + 1)
  {
    seq(n, i requires 0 <= i < n => prefix + NatToString(i + 1))
  }
}
