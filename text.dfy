/**
 * The parts of Python's `str` and `re` behaviour the bot relies on:
 * whitespace and word characters, `strip`/`lstrip`/`rstrip`, `lower`,
 * substring tests, `split`, lexicographic comparison, `int(...)` and
 * `str(...)` on integers, and removal of `@handle\b` mentions.
 */
module Text {
  import opened Common

  /** Python's `str.isspace`, which is also what `\s` matches in a `str` pattern. */
  predicate IsSpace(c: char) {
    || c == ' ' || ('\t' <= c <= '\r') || ('\U{1C}' <= c <= '\U{1F}')
    || c == '\U{85}' || c == '\U{A0}' || c == '\U{1680}'
    || ('\U{2000}' <= c <= '\U{200A}')
    || c == '\U{2028}' || c == '\U{2029}' || c == '\U{202F}' || c == '\U{205F}' || c == '\U{3000}'
  }

  predicate IsDigit(c: char) { '0' <= c <= '9' }

  /** Regex `\w`, restricted to ASCII letters, digits and underscore. */
  predicate IsWordChar(c: char) {
    ('a' <= c <= 'z') || ('A' <= c <= 'Z') || IsDigit(c) || c == '_'
  }

  function LowerChar(c: char): char {
    if 'A' <= c <= 'Z' then (c as int + 32) as char else c
  }

  /** `str.lower()` on ASCII letters. */
  function Lower(s: string): (r: string)
    ensures |r| == |s|
  {
    if s == [] then [] else [LowerChar(s[0])] + Lower(s[1..])
  }

  /** `lower` works character by character. */
  lemma {:induction false} LowerAt(s: string, i: int)
    requires 0 <= i < |s|
    ensures Lower(s)[i] == LowerChar(s[i])
  {
    if i > 0 {
      LowerAt(s[1..], i - 1);
    }
  }

  /** Equal once both sides are lower-cased: how `re.IGNORECASE` compares ASCII text. */
  predicate SameIgnoringCase(a: string, b: string) {
    |a| == |b| && forall i :: 0 <= i < |a| ==> LowerChar(a[i]) == LowerChar(b[i])
  }

  // ---------------------------------------------------------------- stripping

  /** `str.lstrip()`: drops the leading whitespace. */
  function LStrip(s: string): string {
    if s != [] && IsSpace(s[0]) then LStrip(s[1..]) else s
  }

  /** `str.rstrip()`: drops the trailing whitespace. */
  function RStrip(s: string): string {
    if s != [] && IsSpace(s[|s| - 1]) then RStrip(s[..|s| - 1]) else s
  }

  /** `str.strip()` with no argument. */
  function Strip(s: string): string {
    RStrip(LStrip(s))
  }

  /** `str.lstrip(chars)`. */
  function LStripChars(s: string, chars: set<char>): string {
    if s != [] && s[0] in chars then LStripChars(s[1..], chars) else s
  }

  /** `str.rstrip(chars)`. */
  function RStripChars(s: string, chars: set<char>): string {
    if s != [] && s[|s| - 1] in chars then RStripChars(s[..|s| - 1], chars) else s
  }

  /** `str.strip(chars)`. */
  function StripChars(s: string, chars: set<char>): string {
    RStripChars(LStripChars(s, chars), chars)
  }

  /** `lstrip` keeps a tail of s that does not start with whitespace. */
  lemma {:induction false} LStripShape(s: string)
    ensures |LStrip(s)| <= |s| && LStrip(s) == s[|s| - |LStrip(s)|..]
    ensures LStrip(s) != [] ==> !IsSpace(LStrip(s)[0])
  {
    if s != [] && IsSpace(s[0]) {
      LStripShape(s[1..]);
    }
  }

  /** `rstrip` keeps a head of s that does not end with whitespace. */
  lemma {:induction false} RStripShape(s: string)
    ensures |RStrip(s)| <= |s| && RStrip(s) == s[..|RStrip(s)|]
    ensures RStrip(s) != [] ==> !IsSpace(RStrip(s)[|RStrip(s)| - 1])
  {
    if s != [] && IsSpace(s[|s| - 1]) {
      RStripShape(s[..|s| - 1]);
    }
  }

  /** `lstrip` stops at the first character that is not whitespace. */
  lemma {:induction false} LStripBound(s: string, k: int)
    requires 0 <= k < |s| && !IsSpace(s[k])
    ensures |s| - |LStrip(s)| <= k
  {
    if k > 0 && IsSpace(s[0]) {
      LStripBound(s[1..], k - 1);
    }
  }

  /** `rstrip` stops at the last character that is not whitespace. */
  lemma {:induction false} RStripBound(s: string, k: int)
    requires 0 <= k < |s| && !IsSpace(s[k])
    ensures k < |RStrip(s)|
  {
    if k < |s| - 1 && IsSpace(s[|s| - 1]) {
      RStripBound(s[..|s| - 1], k);
    }
  }

  /** Where `Strip(s)` starts inside s: the number of leading whitespace characters. */
  function StripOffset(s: string): int {
    |s| - |LStrip(s)|
  }

  /** `strip` keeps a piece of s with no whitespace at either end. */
  lemma StripShape(s: string)
    ensures 0 <= StripOffset(s) <= StripOffset(s) + |Strip(s)| <= |s|
    ensures Strip(s) == s[StripOffset(s)..StripOffset(s) + |Strip(s)|]
    ensures Strip(s) != [] ==> !IsSpace(Strip(s)[0]) && !IsSpace(Strip(s)[|Strip(s)| - 1])
  {
    var l := LStrip(s);
    LStripShape(s);
    RStripShape(l);
    var r := RStrip(l);
    if r != [] {
      assert r[0] == l[0];
    }
  }

  /** `lstrip(chars)` keeps a tail of s that does not start with a character from `chars`, and consumes all of s exactly when every character is in `chars`. */
  lemma {:induction false} LStripCharsShape(s: string, chars: set<char>)
    ensures |LStripChars(s, chars)| <= |s| && LStripChars(s, chars) == s[|s| - |LStripChars(s, chars)|..]
    ensures LStripChars(s, chars) != [] ==> LStripChars(s, chars)[0] !in chars
    ensures LStripChars(s, chars) == [] <==> forall i :: 0 <= i < |s| ==> s[i] in chars
  {
    if s != [] && s[0] in chars {
      LStripCharsShape(s[1..], chars);
      assert forall i :: 1 <= i < |s| ==> s[i] == s[1..][i - 1];
    }
  }

  predicate NoSpace(s: string) {
    forall i :: 0 <= i < |s| ==> !IsSpace(s[i])
  }

  lemma StripNoSpace(s: string)
    requires NoSpace(s)
    ensures Strip(s) == s
  {
  }

  /** Stripping never touches a character that is not whitespace: such a character survives. */
  lemma StripKeeps(s: string, k: int)
    requires 0 <= k < |s| && !IsSpace(s[k])
    ensures StripOffset(s) <= k < StripOffset(s) + |Strip(s)|
  {
    LStripBound(s, k);
    LStripShape(s);
    var l := LStrip(s);
    assert l[k - StripOffset(s)] == s[k];
    RStripBound(l, k - StripOffset(s));
  }

  /** Strip leaves a string without surrounding whitespace alone. */
  lemma StripUnpadded(s: string)
    requires s != [] && !IsSpace(s[0]) && !IsSpace(s[|s| - 1])
    ensures Strip(s) == s
  {
    StripKeeps(s, 0);
    StripKeeps(s, |s| - 1);
  }

  // ---------------------------------------------------------------- substrings

  predicate OccursAt(s: string, sub: string, i: int) {
    0 <= i && i + |sub| <= |s| && s[i..i + |sub|] == sub
  }

  /** Python's `sub in s`. */
  predicate Contains(s: string, sub: string) {
    exists i :: 0 <= i <= |s| - |sub| && OccursAt(s, sub, i)
  }

  predicate EndsWith(s: string, suffix: string) {
    |suffix| <= |s| && s[|s| - |suffix|..] == suffix
  }

  lemma ContainsSuffix(s: string, t: string)
    ensures Contains(s + t, t)
  {
    assert OccursAt(s + t, t, |s|);
  }

  lemma ContainsPrefix(s: string, t: string)
    ensures Contains(s + t, s)
  {
    assert OccursAt(s + t, s, 0);
  }

  // ---------------------------------------------------------------- split and join

  /** Python's `s.split(sep)` for a one-character separator. */
  function Split(s: string, sep: char): (parts: seq<string>)
    ensures |parts| >= 1
    ensures forall k :: 0 <= k < |parts| ==> sep !in parts[k]
  {
    if s == [] then [[]]
    else
      var rest := Split(s[1..], sep);
      if s[0] == sep then [[]] + rest else [[s[0]] + rest[0]] + rest[1..]
  }

  /** Python's `sep.join(parts)`. */
  function Join(parts: seq<string>, sep: char): string {
    if parts == [] then []
    else if |parts| == 1 then parts[0]
    else parts[0] + [sep] + Join(parts[1..], sep)
  }

  lemma {:induction false} JoinSplit(s: string, sep: char)
    ensures Join(Split(s, sep), sep) == s
  {
    if s != [] {
      var rest := Split(s[1..], sep);
      JoinSplit(s[1..], sep);
      if s[0] == sep {
        assert Split(s, sep)[1..] == rest;
      } else {
        var parts := Split(s, sep);
        if |rest| == 1 {
          assert parts == [[s[0]] + rest[0]];
        } else {
          assert parts[1..] == rest[1..];
          assert Join(rest, sep) == rest[0] + [sep] + Join(rest[1..], sep);
        }
      }
    }
  }

  // ---------------------------------------------------------------- ordering

  /** Python's `a <= b` on strings: lexicographic on code points. */
  predicate StrLe(a: string, b: string) {
    a == [] || (b != [] && (a[0] < b[0] || (a[0] == b[0] && StrLe(a[1..], b[1..]))))
  }

  lemma {:induction false} StrLeRefl(a: string)
    ensures StrLe(a, a)
  {
    if a != [] {
      StrLeRefl(a[1..]);
    }
  }

  lemma {:induction false} StrLeTotal(a: string, b: string)
    ensures StrLe(a, b) || StrLe(b, a)
  {
    if a != [] && b != [] && a[0] == b[0] {
      StrLeTotal(a[1..], b[1..]);
    }
  }

  lemma {:induction false} StrLeTrans(a: string, b: string, c: string)
    requires StrLe(a, b) && StrLe(b, c)
    ensures StrLe(a, c)
  {
    if a != [] && b != [] && c != [] && a[0] == b[0] == c[0] {
      StrLeTrans(a[1..], b[1..], c[1..]);
    }
  }

  lemma {:induction false} StrLeAntisym(a: string, b: string)
    requires StrLe(a, b) && StrLe(b, a)
    ensures a == b
  {
    if a != [] && b != [] {
      StrLeAntisym(a[1..], b[1..]);
      assert a == [a[0]] + a[1..];
      assert b == [b[0]] + b[1..];
    }
  }

  // ---------------------------------------------------------------- integers

  function DigitValue(c: char): nat
    requires IsDigit(c)
  {
    c as int - '0' as int
  }

  function DigitChar(d: nat): (c: char)
    requires d < 10
    ensures IsDigit(c) && DigitValue(c) == d
  {
    ('0' as int + d) as char
  }

  predicate AllDigits(s: string) {
    forall i :: 0 <= i < |s| ==> IsDigit(s[i])
  }

  /** The value of a string of decimal digits. */
  function DigitsValue(s: string): nat
    requires AllDigits(s)
  {
    if s == [] then 0 else DigitsValue(s[..|s| - 1]) * 10 + DigitValue(s[|s| - 1])
  }

  /** `str(n)` for a natural number. */
  function NatToDigits(n: nat): (r: string)
    ensures |r| >= 1 && AllDigits(r)
  {
    if n < 10 then [DigitChar(n)] else NatToDigits(n / 10) + [DigitChar(n % 10)]
  }

  /** `str(n)` for any integer. */
  function IntToString(n: int): string {
    if n < 0 then "-" + NatToDigits(-n) else NatToDigits(n)
  }

  /**
   * Python's `int(s)` for a decimal string: surrounding whitespace is
   * ignored, an optional sign, then one or more digits.
   */
  function ParseInt(s: string): (r: Option<int>)
    ensures r.Some? ==> Strip(s) != []
    ensures r.Some? && r.value < 0 ==> Strip(s)[0] == '-'
    ensures r.Some? && Strip(s)[0] != '-' && Strip(s)[0] != '+' ==> AllDigits(Strip(s))
  {
    var t := Strip(s);
    if t != [] && (t[0] == '-' || t[0] == '+') then
      if |t| > 1 && AllDigits(t[1..]) then
        Some(if t[0] == '-' then -(DigitsValue(t[1..]) as int) else DigitsValue(t[1..]))
      else None
    else if t != [] && AllDigits(t) then Some(DigitsValue(t))
    else None
  }

  lemma {:induction false} DigitsRoundTrip(n: nat)
    ensures DigitsValue(NatToDigits(n)) == n
  {
    if n >= 10 {
      DigitsRoundTrip(n / 10);
      var r := NatToDigits(n);
      assert r[..|r| - 1] == NatToDigits(n / 10);
    }
  }

  /** `str(n)` is never empty and starts with a digit or a minus sign. */
  lemma IntToStringStart(n: int)
    ensures IntToString(n) != [] && (IntToString(n)[0] == '-' || IsDigit(IntToString(n)[0]))
  {
    if n >= 0 {
      assert IsDigit(NatToDigits(n)[0]);
    }
  }

  /** `int(str(n)) == n`, also with surrounding whitespace. */
  lemma ParseIntRoundTrip(n: int)
    ensures ParseInt(IntToString(n)) == Some(n)
  {
    var s := IntToString(n);
    var d := NatToDigits(if n < 0 then -n else n);
    assert forall i :: 0 <= i < |s| ==> !IsSpace(s[i]);
    StripNoSpace(s);
    DigitsRoundTrip(if n < 0 then -n else n);
    if n < 0 {
      assert s[1..] == d;
    }
  }

  // ---------------------------------------------------------------- handle mentions

  /** Regex `\b` at position j, for 0 < j <= |s|. */
  predicate WordBoundary(s: string, j: int)
    requires 0 < j <= |s|
  {
    IsWordChar(s[j - 1]) != (j < |s| && IsWordChar(s[j]))
  }

  /** Does `@handle\b`, ignoring case, match at the start of s? */
  predicate MentionAtStart(s: string, handle: string) {
    && 1 + |handle| <= |s|
    && s[0] == '@'
    && SameIgnoringCase(s[1..1 + |handle|], handle)
    && WordBoundary(s, 1 + |handle|)
  }

  /** `re.sub(rf'@{handle}\b', '', s, flags=re.IGNORECASE)`: one left-to-right pass. */
  function RemoveMentions(s: string, handle: string): (r: string)
    ensures |r| <= |s|
    decreases |s|
  {
    if s == [] then []
    else if MentionAtStart(s, handle) then RemoveMentions(s[1 + |handle|..], handle)
    else [s[0]] + RemoveMentions(s[1..], handle)
  }

  /** Every character of the result is a character of the input. */
  lemma {:induction false} RemoveMentionsChars(s: string, handle: string, c: char)
    requires c in RemoveMentions(s, handle)
    ensures c in s
    decreases |s|
  {
    if s != [] {
      if MentionAtStart(s, handle) {
        RemoveMentionsChars(s[1 + |handle|..], handle, c);
      } else if c != s[0] {
        RemoveMentionsChars(s[1..], handle, c);
      }
    }
  }

  /** Text holding no `@` passes through unchanged. */
  lemma {:induction false} RemoveMentionsNoAt(s: string, handle: string)
    requires '@' !in s
    ensures RemoveMentions(s, handle) == s
    decreases |s|
  {
    if s != [] {
      assert s[0] != '@';
      RemoveMentionsNoAt(s[1..], handle);
    }
  }
}
