/** Character classes and small scanners shared by the handler's pattern
    matchers. Each scanner says in its contract exactly which position it
    finds, so that the matchers built on them can state their capture
    boundaries precisely. */
module Text {
  import opened Wrappers

  /** `[0-9]`. The `\d` of the handler's patterns is modelled by this class. */
  predicate IsDigit(c: char) {
    '0' <= c <= '9'
  }

  predicate IsLower(c: char) {
    'a' <= c <= 'z'
  }

  predicate IsUpper(c: char) {
    'A' <= c <= 'Z'
  }

  /** `[a-zA-Z0-9_]`, which is also the ASCII part of `\w`. */
  predicate IsWordChar(c: char) {
    IsLower(c) || IsUpper(c) || IsDigit(c) || c == '_'
  }

  /** `\s` on text: the code points Python's `str.isspace()` accepts. */
  predicate IsSpace(c: char) {
    var n := c as int;
    || (0x09 <= n <= 0x0d)
    || (0x1c <= n <= 0x20)
    || n == 0x85 || n == 0xa0 || n == 0x1680
    || (0x2000 <= n <= 0x200a)
    || n == 0x2028 || n == 0x2029 || n == 0x202f || n == 0x205f || n == 0x3000
  }

  /** What `\d+` matches as a whole: one or more digits. */
  predicate IsDigits(s: string) {
    |s| > 0 && forall i :: 0 <= i < |s| ==> IsDigit(s[i])
  }

  /** No character of `s` is white space, as `\S*` demands. */
  predicate NoSpace(s: string) {
    forall i :: 0 <= i < |s| ==> !IsSpace(s[i])
  }

  /** What `.*` matches as a whole: `.` is any character but a line feed. */
  predicate NoNewline(s: string) {
    '\n' !in s
  }

  predicate StartsWith(s: string, prefix: string) {
    |prefix| <= |s| && s[..|prefix|] == prefix
  }

  predicate EndsWith(s: string, suffix: string) {
    |suffix| <= |s| && s[|s| - |suffix|..] == suffix
  }

  /** Digits hold no character that is not a digit. */
  lemma DigitsExclude(d: string, c: char)
    requires IsDigits(d) && !IsDigit(c)
    ensures c !in d
  {
    forall i | 0 <= i < |d| ensures d[i] != c {
      assert IsDigit(d[i]);
    }
  }

  /** The three pieces of `a`, the character `c` and `b`, read back. */
  lemma AroundChar(a: string, c: char, b: string)
    ensures var s := a + ([c] + b);
      && s[..|a|] == a && s[|a|] == c && s[|a| + 1..] == b
  {
    var s := a + ([c] + b);
    assert s[..|a|] == a;
    assert s[|a|..] == [c] + b;
  }

  /** A character of the second part of a concatenation, read in the whole. */
  lemma IndexInSecond(s: string, a: string, b: string, i: nat)
    requires s == a + b && i < |b|
    ensures s[|a| + i] == b[i]
  {
  }

  /** `s` split around the character at `k`. */
  lemma SplitAt(s: string, k: nat)
    requires k < |s|
    ensures s == s[..k] + ([s[k]] + s[k + 1..])
  {
    assert s[k..] == [s[k]] + s[k + 1..];
  }

  /** `s` as the prefix, the part of `rest` before `i`, and `tail`. */
  lemma SplitRest(s: string, prefix: string, rest: string, i: nat, tail: string)
    requires s == prefix + rest && i <= |rest| && rest[i..] == tail
    ensures s == prefix + (rest[..i] + tail)
  {
    assert rest == rest[..i] + rest[i..];
  }

  /** `s` around the single characters at 0 and `k + 1`. */
  lemma Around(s: string, k: nat)
    requires k + 1 < |s|
    ensures s == [s[0]] + s[1..k + 1] + [s[k + 1]] + s[k + 2..]
  {
  }

  /** `s` cut into two leading characters, a middle, and the single
      characters at `j` and `j + 1`. */
  lemma AroundPair(s: string, j: nat)
    requires 2 <= j && j + 1 < |s|
    ensures s == s[..2] + s[2..j] + [s[j]] + [s[j + 1]] + s[j + 2..]
  {
  }

  /** The five pieces of a five-way concatenation, read back by slicing. */
  lemma Pieces5(a: string, b: string, c: string, d: string, e: string)
    ensures var s := a + b + c + d + e;
      && s[..|a|] == a
      && s[|a|..] == b + c + d + e
      && s[|a|..|a| + |b|] == b
      && s[|a| + |b|..] == c + d + e
      && s[|a| + |b| + |c| + |d|..] == e
  {
    var s := a + b + c + d + e;
    assert s == a + (b + c + d + e);
    assert s[|a|..] == b + c + d + e;
    assert b + c + d + e == b + (c + d + e);
  }

  /** What follows `prefix` in `s`, when `s` starts with it. */
  function StripPrefix(s: string, prefix: string): (r: Option<string>)
    ensures r.Some? <==> StartsWith(s, prefix)
    ensures r.Some? ==> s == prefix + r.value
  {
    if StartsWith(s, prefix) then
      assert s == s[..|prefix|] + s[|prefix|..];
      Some(s[|prefix|..])
    else None
  }

  lemma StripPrefixOf(prefix: string, rest: string)
    ensures StripPrefix(prefix + rest, prefix) == Some(rest)
  {
    assert (prefix + rest)[..|prefix|] == prefix;
    assert (prefix + rest)[|prefix|..] == rest;
  }

  /** The first position of `c` in `s`. */
  function IndexOf(s: string, c: char): (r: Option<nat>)
    ensures r.Some? ==> r.value < |s| && s[r.value] == c && c !in s[..r.value]
    ensures r.None? ==> c !in s
  {
    if |s| == 0 then None
    else if s[0] == c then Some(0)
    else
      match IndexOf(s[1..], c)
      case None => None
      case Some(i) =>
        assert s[..i + 1] == [s[0]] + s[1..][..i];
        Some(i + 1)
  }

  /** The last position of `c` in `s`. */
  function LastIndexOf(s: string, c: char): (r: Option<nat>)
    ensures r.Some? ==> r.value < |s| && s[r.value] == c && c !in s[r.value + 1..]
    ensures r.None? ==> c !in s
  {
    if |s| == 0 then None
    else if s[|s| - 1] == c then Some(|s| - 1)
    else
      var r := LastIndexOf(s[..|s| - 1], c);
      assert s == s[..|s| - 1] + [s[|s| - 1]];
      if r.Some? then
        assert s[r.value + 1..] == s[..|s| - 1][r.value + 1..] + [s[|s| - 1]];
        r
      else r
  }

  /** A position holding the first occurrence of `c` is what `IndexOf` finds. */
  lemma IndexOfIs(s: string, c: char, k: nat)
    requires k < |s| && s[k] == c && c !in s[..k]
    ensures IndexOf(s, c) == Some(k)
  {
  }

  /** A position holding the last occurrence of `c` is what `LastIndexOf` finds. */
  lemma LastIndexOfIs(s: string, c: char, k: nat)
    requires k < |s| && s[k] == c && c !in s[k + 1..]
    ensures LastIndexOf(s, c) == Some(k)
  {
  }

  /** How far a greedy `[p]{0,bound}` advances from the start of `s`. */
  function LeadingRun(s: string, p: char -> bool, bound: nat): (n: nat)
    ensures n <= bound && n <= |s|
    ensures forall i :: 0 <= i < n ==> p(s[i])
    ensures n < bound && n < |s| ==> !p(s[n])
  {
    if bound == 0 || |s| == 0 || !p(s[0]) then 0
    else 1 + LeadingRun(s[1..], p, bound - 1)
  }

  /** A run that ends where `p` first fails (or at the bound) is the run found. */
  lemma LeadingRunIs(s: string, p: char -> bool, bound: nat, n: nat)
    requires n <= bound && n <= |s|
    requires forall i :: 0 <= i < n ==> p(s[i])
    requires n < bound && n < |s| ==> !p(s[n])
    ensures LeadingRun(s, p, bound) == n
  {
  }

  /** The number of copies of `c` that end `s`. */
  function TrailingRun(s: string, c: char): (n: nat)
    ensures n <= |s|
    ensures forall i :: |s| - n <= i < |s| ==> s[i] == c
    ensures n < |s| ==> s[|s| - n - 1] != c
  {
    if |s| == 0 || s[|s| - 1] != c then 0
    else 1 + TrailingRun(s[..|s| - 1], c)
  }

  lemma TrailingRunIs(s: string, c: char, n: nat)
    requires n <= |s|
    requires forall i :: |s| - n <= i < |s| ==> s[i] == c
    requires n < |s| ==> s[|s| - n - 1] != c
    ensures TrailingRun(s, c) == n
  {
  }

  function DigitValue(c: char): (v: nat)
    requires IsDigit(c)
    ensures v < 10
  {
    c as int - '0' as int
  }

  function DigitChar(v: nat): (c: char)
    requires v < 10
    ensures IsDigit(c) && DigitValue(c) == v
  {
    ('0' as int + v) as char
  }

  function Pow10(n: nat): (p: nat)
    ensures p >= 1
  {
    if n == 0 then 1 else 10 * Pow10(n - 1)
  }

  /** The value Python's `int()` gives a string of decimal digits. */
  function DecimalValue(ds: string): (v: nat)
    requires forall i :: 0 <= i < |ds| ==> IsDigit(ds[i])
    ensures v < Pow10(|ds|)
  {
    if |ds| == 0 then 0
    else 10 * DecimalValue(ds[..|ds| - 1]) + DigitValue(ds[|ds| - 1])
  }

  /** The shortest decimal spelling of `n`. */
  function ShowDecimal(n: nat): (s: string)
    ensures IsDigits(s)
  {
    if n < 10 then [DigitChar(n)]
    else ShowDecimal(n / 10) + [DigitChar(n % 10)]
  }

  /** Reading back the decimal spelling of a number gives the number. */
  lemma {:induction false} DecimalValueOfShow(n: nat)
    ensures DecimalValue(ShowDecimal(n)) == n
  {
    if n >= 10 {
      var s := ShowDecimal(n);
      assert s[..|s| - 1] == ShowDecimal(n / 10);
      DecimalValueOfShow(n / 10);
    }
  }
}
