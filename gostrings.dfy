/**
 * The small part of Go's `strings`, `fmt` and `strconv` packages that the
 * cache, the documentation middleware and the configuration rely on.
 * Go strings are modelled as Dafny strings, one `char` per character.
 */
module GoStrings {

  /** strings.HasPrefix */
  predicate HasPrefix(s: string, prefix: string) {
    prefix <= s
  }

  /** strings.HasSuffix */
  predicate HasSuffix(s: string, suffix: string) {
    |suffix| <= |s| && s[|s| - |suffix|..] == suffix
  }

  /** strings.TrimPrefix: drops `prefix` once if `s` starts with it. */
  function TrimPrefix(s: string, prefix: string): (r: string)
    ensures HasPrefix(s, prefix) ==> prefix + r == s
    ensures !HasPrefix(s, prefix) ==> r == s
  {
    if HasPrefix(s, prefix) then
      assert s == s[..|prefix|] + s[|prefix|..];
      s[|prefix|..]
    else s
  }

  /** strings.TrimSuffix: drops `suffix` once if `s` ends with it. */
  function TrimSuffix(s: string, suffix: string): (r: string)
    ensures HasSuffix(s, suffix) ==> r + suffix == s
    ensures !HasSuffix(s, suffix) ==> r == s
  {
    if HasSuffix(s, suffix) then
      assert s == s[..|s| - |suffix|] + s[|s| - |suffix|..];
      s[..|s| - |suffix|]
    else s
  }

  /** A character put in front of `s` makes it end in `t` only if `t` is all of the new string. */
  lemma PrependKeepsNoSuffix(c: char, s: string, t: string)
    requires !HasSuffix(s, t) && t != [] && t[0] != c
    ensures !HasSuffix([c] + s, t)
  {
  }

  /** Appending the same string to both sides keeps a suffix a suffix. */
  lemma HasSuffixAppend(a: string, b: string, c: string)
    requires HasSuffix(a, b)
    ensures HasSuffix(a + c, b + c)
  {
    assert (a + c)[|a + c| - |b + c|..] == a[|a| - |b|..] + c;
  }

  /**
   * utils.TrimFirstRune, whose source is not part of this model: by its
   * name and use it drops the first rune of a string and leaves "" alone.
   */
  function TrimFirstRune(s: string): (r: string)
    ensures s == [] ==> r == []
    ensures s != [] ==> [s[0]] + r == s
  {
    if s == [] then [] else s[1..]
  }

  predicate IsDigit(c: char) {
    '0' <= c <= '9'
  }

  predicate AllDigits(s: string) {
    forall i :: 0 <= i < |s| ==> IsDigit(s[i])
  }

  function DigitChar(d: nat): (c: char)
    requires d < 10
    ensures IsDigit(c)
  {
    ('0' as int + d) as char
  }

  function DigitValue(c: char): (d: nat)
    requires IsDigit(c)
    ensures d < 10 && DigitChar(d) == c
  {
    c as int - '0' as int
  }

  /** The `%d` verb of fmt applied to an unsigned integer: decimal, no leading zeros. */
  function FormatUint(n: nat): (s: string)
    ensures |s| > 0 && AllDigits(s)
    ensures s[0] == '0' ==> n == 0
    decreases n
  {
    if n < 10 then [DigitChar(n)] else FormatUint(n / 10) + [DigitChar(n % 10)]
  }

  /** Reads a string of decimal digits back as a number; the reference for FormatUint. */
  function ParseUint(s: string): nat
    requires AllDigits(s)
    decreases |s|
  {
    if s == [] then 0 else ParseUint(s[..|s| - 1]) * 10 + DigitValue(s[|s| - 1])
  }

  /** Formatting an ID and reading it back gives the ID. */
  lemma {:induction false} ParseFormatUint(n: nat)
    ensures ParseUint(FormatUint(n)) == n
    decreases n
  {
    if n >= 10 {
      var s := FormatUint(n);
      assert s[..|s| - 1] == FormatUint(n / 10);
      ParseFormatUint(n / 10);
    }
  }

  /** Distinct IDs are formatted differently. */
  lemma FormatUintInjective(a: nat, b: nat)
    requires FormatUint(a) == FormatUint(b)
    ensures a == b
  {
    ParseFormatUint(a);
    ParseFormatUint(b);
  }

  /**
   * The simple lower-case mapping of one character that matters for
   * comparisons against ASCII words: ASCII upper-case letters, and the two
   * non-ASCII characters whose lower case is ASCII (U+0130 and the Kelvin
   * sign U+212A). Every other character is kept; its Go lower case is then
   * either itself or non-ASCII.
   */
  function LowerRune(c: char): char {
    if 'A' <= c <= 'Z' then (c as int + 32) as char
    else if c == '\U{0130}' then 'i'
    else if c == '\U{212A}' then 'k'
    else c
  }

  /** strings.ToLower, character by character. */
  function ToLower(s: string): (r: string)
    ensures |r| == |s|
    ensures forall i :: 0 <= i < |s| ==> r[i] == LowerRune(s[i])
    ensures forall i :: 0 <= i < |r| ==> !('A' <= r[i] <= 'Z')
    ensures forall i :: 0 <= i < |s| && s[i] < '\U{80}' && !('A' <= s[i] <= 'Z') ==> r[i] == s[i]
  {
    seq(|s|, i requires 0 <= i < |s| => LowerRune(s[i]))
  }

  /** The escape strconv.Quote writes for one character. */
  function QuoteRune(c: char): string {
    if c == '"' then "\\\""
    else if c == '\\' then "\\\\"
    else if c == '\n' then "\\n"
    else if c == '\t' then "\\t"
    else if c == '\r' then "\\r"
    else [c]
  }

  function QuoteBody(s: string): string
    decreases |s|
  {
    if s == [] then [] else QuoteRune(s[0]) + QuoteBody(s[1..])
  }

  /** The `%q` verb of fmt applied to a string (strconv.Quote). */
  function Quote(s: string): (r: string)
    ensures |r| >= 2 && r[0] == '"' && r[|r| - 1] == '"'
  {
    "\"" + QuoteBody(s) + "\""
  }

  /** A string with nothing to escape is quoted by wrapping it in double quotes. */
  lemma {:induction false} QuotePlain(s: string)
    requires forall i :: 0 <= i < |s| ==> s[i] !in "\"\\\n\t\r"
    ensures Quote(s) == "\"" + s + "\""
  {
    QuoteBodyPlain(s);
  }

  lemma {:induction false} QuoteBodyPlain(s: string)
    requires forall i :: 0 <= i < |s| ==> s[i] !in "\"\\\n\t\r"
    ensures QuoteBody(s) == s
    decreases |s|
  {
    if s != [] {
      QuoteBodyPlain(s[1..]);
    }
  }
}
