/**
 * String helpers with the meaning JavaScript gives them in the compiler:
 * the `\s` character class (and what `String.prototype.trim` strips),
 * `split`, `join`, `startsWith`, `endsWith`, `trim` and number-to-decimal
 * conversion in template strings.
 */
module Text {

  /** JavaScript's `\s`: the whitespace and line-terminator characters. */
  predicate IsWs(c: char) {
    || c == ' ' || c == '\t' || c == '\n' || c == '\r'
    || c == '\U{000B}' || c == '\U{000C}' || c == '\U{00A0}' || c == '\U{1680}'
    || ('\U{2000}' <= c <= '\U{200A}')
    || c == '\U{2028}' || c == '\U{2029}' || c == '\U{202F}' || c == '\U{205F}'
    || c == '\U{3000}' || c == '\U{FEFF}'
  }

  predicate IsLetter(c: char) {
    ('a' <= c <= 'z') || ('A' <= c <= 'Z')
  }

  predicate IsDigit(c: char) {
    '0' <= c <= '9'
  }

  /** `[a-zA-Z_]`, the first character of an identifier. */
  predicate IsIdentStart(c: char) {
    IsLetter(c) || c == '_'
  }

  /** `[a-zA-Z0-9_]`, the characters of `\w` (and of the `\b` boundary). */
  predicate IsWordChar(c: char) {
    IsLetter(c) || IsDigit(c) || c == '_'
  }

  /** `[a-zA-Z\[\]]`, a character of a type name. */
  predicate IsTypeChar(c: char) {
    IsLetter(c) || c == '[' || c == ']'
  }

  /** End of the run of type-name characters starting at `i`. */
  function TypeEnd(s: string, i: nat): (j: nat)
    requires i <= |s|
    ensures i <= j <= |s|
    ensures forall k :: i <= k < j ==> IsTypeChar(s[k])
    ensures j == |s| || !IsTypeChar(s[j])
    decreases |s| - i
  {
    if i < |s| && IsTypeChar(s[i]) then TypeEnd(s, i + 1) else i
  }

  predicate AllWs(s: string) {
    forall k :: 0 <= k < |s| ==> IsWs(s[k])
  }

  predicate AllDigits(s: string) {
    forall k :: 0 <= k < |s| ==> IsDigit(s[k])
  }

  predicate StartsWith(s: string, prefix: string) {
    |prefix| <= |s| && s[..|prefix|] == prefix
  }

  /** A text that starts with a non-empty prefix starts with its first character. */
  lemma StartsWithHead(s: string, prefix: string)
    ensures StartsWith(s, prefix) && |prefix| > 0 ==> s[0] == prefix[0]
  {
    if StartsWith(s, prefix) && |prefix| > 0 {
      assert s[..|prefix|][0] == prefix[0];
    }
  }

  predicate EndsWith(s: string, suffix: string) {
    |suffix| <= |s| && s[|s| - |suffix|..] == suffix
  }

  /** The first index at or after `i` that is not whitespace (or |s|). */
  function SkipWs(s: string, i: nat): (j: nat)
    requires i <= |s|
    ensures i <= j <= |s|
    ensures AllWs(s[i..j])
    ensures j == |s| || !IsWs(s[j])
    decreases |s| - i
  {
    if i < |s| && IsWs(s[i]) then SkipWs(s, i + 1) else i
  }

  /** The first index at or after `i` holding `c` (or |s|). */
  function IndexOf(s: string, c: char, i: nat): (j: nat)
    requires i <= |s|
    ensures i <= j <= |s|
    ensures forall k :: i <= k < j ==> s[k] != c
    ensures j == |s| || s[j] == c
    decreases |s| - i
  {
    if i == |s| || s[i] == c then i else IndexOf(s, c, i + 1)
  }

  /** The index just past the last non-whitespace character of `s[i..j]` (or `i`). */
  function SkipWsBack(s: string, i: nat, j: nat): (k: nat)
    requires i <= j <= |s|
    ensures i <= k <= j
    ensures forall t :: k <= t < j ==> IsWs(s[t])
    ensures k == i || !IsWs(s[k - 1])
    decreases j
  {
    if j > i && IsWs(s[j - 1]) then SkipWsBack(s, i, j - 1) else j
  }

  /** `String.prototype.trim`: the text between the leading and the trailing whitespace. */
  function Trim(s: string): string {
    var a := SkipWs(s, 0);
    s[a..SkipWsBack(s, a, |s|)]
  }

  /** `trim` keeps a middle slice: whitespace is cut from both ends, and only whitespace. */
  lemma TrimShape(s: string) returns (a: nat, b: nat)
    ensures a <= b <= |s| && Trim(s) == s[a..b]
    ensures AllWs(s[..a]) && AllWs(s[b..])
    ensures a < b ==> !IsWs(s[a]) && !IsWs(s[b - 1])
  {
    a := SkipWs(s, 0);
    b := SkipWsBack(s, a, |s|);
    assert s[..a] == s[0..a];
  }

  lemma TrimAllWs(s: string)
    requires AllWs(s)
    ensures Trim(s) == ""
  {
  }

  /** `Array.prototype.join(sep)`. */
  function Join(parts: seq<string>, sep: string): string {
    if |parts| == 0 then ""
    else if |parts| == 1 then parts[0]
    else parts[0] + sep + Join(parts[1..], sep)
  }

  /** `String.prototype.split(sep)` for a one-character separator. */
  function Split(s: string, sep: char): (parts: seq<string>)
    ensures |parts| >= 1
    decreases |s|
  {
    var i := IndexOf(s, sep, 0);
    if i == |s| then [s] else [s[..i]] + Split(s[i + 1..], sep)
  }

  /** Splitting and joining again on the same separator gives the text back. */
  lemma {:induction false} JoinSplit(s: string, sep: char)
    ensures Join(Split(s, sep), [sep]) == s
    decreases |s|
  {
    var i := IndexOf(s, sep, 0);
    if i < |s| {
      var x, rest := s[..i], s[i + 1..];
      var ps := Split(rest, sep);
      assert Split(s, sep) == [x] + ps;
      assert Join([x] + ps, [sep]) == x + [sep] + Join(ps, [sep]) by {
        assert ([x] + ps)[0] == x;
        assert ([x] + ps)[1..] == ps;
      }
      JoinSplit(rest, sep);
      assert s == x + [sep] + rest;
    }
  }

  /** Splitting text whose first piece has no separator yields that piece first. */
  lemma SplitFirst(a: string, sep: char, b: string)
    requires forall k :: 0 <= k < |a| ==> a[k] != sep
    ensures Split(a + [sep] + b, sep) == [a] + Split(b, sep)
  {
    var s := a + [sep] + b;
    var i := IndexOf(s, sep, 0);
    assert s[|a|] == sep;
    assert forall k :: 0 <= k < |a| ==> s[k] == a[k];
    assert i == |a|;
    assert s[..i] == a;
    assert s[i + 1..] == b;
  }

  /** Splitting text that holds no separator yields the text itself. */
  lemma SplitNone(a: string, sep: char)
    requires forall k :: 0 <= k < |a| ==> a[k] != sep
    ensures Split(a, sep) == [a]
  {
  }

  function DigitChar(d: nat): (c: char)
    requires d < 10
    ensures IsDigit(c)
  {
    ['0', '1', '2', '3', '4', '5', '6', '7', '8', '9'][d]
  }

  /** Decimal representation of a natural number, as `${n}` gives it. */
  function NatToString(n: nat): (s: string)
    ensures |s| >= 1 && AllDigits(s)
    ensures n < 10 ==> |s| == 1
    ensures n >= 10 ==> |s| >= 2
  {
    if n < 10 then [DigitChar(n)] else NatToString(n / 10) + [DigitChar(n % 10)]
  }

  /** Different numbers have different decimal representations. */
  lemma {:induction false} NatToStringInjective(m: nat, n: nat)
    requires NatToString(m) == NatToString(n)
    ensures m == n
  {
    if m >= 10 && n >= 10 {
      var sm, sn := NatToString(m), NatToString(n);
      assert sm[..|sm| - 1] == NatToString(m / 10);
      assert sn[..|sn| - 1] == NatToString(n / 10);
      assert sm[|sm| - 1] == DigitChar(m % 10);
      NatToStringInjective(m / 10, n / 10);
      DigitCharInjective(m % 10, n % 10);
    } else if m < 10 && n < 10 {
      DigitCharInjective(m, n);
    }
  }

  lemma DigitCharInjective(a: nat, b: nat)
    requires a < 10 && b < 10 && DigitChar(a) == DigitChar(b)
    ensures a == b
  {
  }
}
