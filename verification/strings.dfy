/** The few `str` methods the start-up code relies on, with Python's meaning.
    Case mapping and character classes are ASCII only. */
module Strings {
  import opened Wrappers

  predicate IsUpper(c: char) {
    'A' <= c <= 'Z'
  }

  predicate IsLowerLetter(c: char) {
    'a' <= c <= 'z'
  }

  predicate IsAlpha(c: char) {
    IsUpper(c) || IsLowerLetter(c)
  }

  function LowerChar(c: char): (r: char)
    ensures IsAlpha(c) <==> IsLowerLetter(r)
    ensures !IsUpper(c) ==> r == c
    ensures !IsUpper(r)
  {
    if IsUpper(c) then (c as int - 'A' as int + 'a' as int) as char else c
  }

  /** `s.lower()`. */
  function Lower(s: string): (r: string)
    ensures |r| == |s|
    ensures forall i :: 0 <= i < |s| ==> r[i] == LowerChar(s[i])
  {
    if |s| == 0 then [] else [LowerChar(s[0])] + Lower(s[1..])
  }

  predicate StartsWith(s: string, prefix: string) {
    |prefix| <= |s| && s[..|prefix|] == prefix
  }

  predicate EndsWith(s: string, suffix: string) {
    |suffix| <= |s| && s[|s| - |suffix|..] == suffix
  }

  /** `sub in s` for two strings. */
  predicate IsInfix(sub: string, s: string)
    decreases |s|
  {
    |sub| <= |s| && (s[..|sub|] == sub || (|s| > 0 && IsInfix(sub, s[1..])))
  }

  /** Index of the first occurrence of `c`. */
  function IndexOf(s: string, c: char): (r: Option<nat>)
    ensures r.None? <==> c !in s
    ensures r.Some? ==> r.value < |s| && s[r.value] == c && c !in s[..r.value]
  {
    if |s| == 0 then None
    else if s[0] == c then Some(0)
    else match IndexOf(s[1..], c)
      case None => None
      case Some(i) =>
        assert s[..i + 1] == [s[0]] + s[1..][..i];
        Some(i + 1)
  }

  /** `s.split(sep)` for a one-character separator. */
  function Split(s: string, sep: char): (parts: seq<string>)
    ensures |parts| >= 1
    ensures forall p :: p in parts ==> sep !in p
    ensures sep !in s ==> parts == [s]
  {
    match IndexOf(s, sep)
    case None => [s]
    case Some(i) => [s[..i]] + Split(s[i + 1..], sep)
  }

  /** `s.split(sep)[0]`: the text before the first `sep`. */
  function BeforeFirst(s: string, sep: char): (r: string)
    ensures StartsWith(s, r)
    ensures sep !in r
    ensures |r| < |s| ==> s[|r|] == sep
  {
    match IndexOf(s, sep)
    case None => s
    case Some(i) => s[..i]
  }

  /** The number of occurrences of `c` in `s`. */
  function Count(s: string, c: char): nat {
    if |s| == 0 then 0 else (if s[0] == c then 1 else 0) + Count(s[1..], c)
  }

  lemma {:induction false} SplitCount(s: string, sep: char)
    ensures |Split(s, sep)| == Count(s, sep) + 1
    decreases |s|
  {
    match IndexOf(s, sep)
    case None =>
      CountAbsent(s, sep);
    case Some(i) =>
      var tail := s[i + 1..];
      assert |Split(s, sep)| == 1 + |Split(tail, sep)|;
      SplitCount(tail, sep);
      CountAt(s, sep, i);
  }

  lemma {:induction false} CountAbsent(s: string, c: char)
    requires c !in s
    ensures Count(s, c) == 0
  {
    if |s| > 0 {
      CountAbsent(s[1..], c);
    }
  }

  lemma {:induction false} CountAt(s: string, c: char, i: nat)
    requires i < |s| && s[i] == c && c !in s[..i]
    ensures Count(s, c) == 1 + Count(s[i + 1..], c)
  {
    if i > 0 {
      assert s[1..][i - 1] == c;
      assert s[1..][..i - 1] == s[1..i];
      assert s[1..][i..] == s[i + 1..];
      CountAt(s[1..], c, i - 1);
    } else {
      assert s[1..] == s[i + 1..];
    }
  }

  /** An occurrence of `c` at `i` counts once more than the occurrences
      after it. */
  lemma {:induction false} CountFrom(s: string, c: char, i: nat)
    requires i < |s| && s[i] == c
    ensures Count(s, c) >= 1 + Count(s[i + 1..], c)
  {
    if i > 0 {
      assert s[1..][i - 1] == c;
      assert s[1..][i..] == s[i + 1..];
      CountFrom(s[1..], c, i - 1);
    } else {
      assert s[1..] == s[i + 1..];
    }
  }

  /** Two occurrences of `c` make at least two. */
  lemma CountTwo(s: string, c: char, i: nat, j: nat)
    requires i < j < |s| && s[i] == c && s[j] == c
    ensures Count(s, c) >= 2
  {
    CountFrom(s, c, i);
    assert s[i + 1..][j - i - 1] == c;
    CountFrom(s[i + 1..], c, j - i - 1);
  }

  /** `s.lstrip(chars)`. */
  function LeftStrip(s: string, chars: set<char>): (r: string)
    ensures EndsWith(s, r)
    ensures |r| > 0 ==> r[0] !in chars
    ensures forall i :: 0 <= i < |s| - |r| ==> s[i] in chars
  {
    if |s| > 0 && s[0] in chars then LeftStrip(s[1..], chars) else s
  }

  /** `s.rstrip(chars)`. */
  function RightStrip(s: string, chars: set<char>): (r: string)
    ensures StartsWith(s, r)
    ensures |r| > 0 ==> r[|r| - 1] !in chars
    ensures forall i :: |r| <= i < |s| ==> s[i] in chars
  {
    if |s| > 0 && s[|s| - 1] in chars then RightStrip(s[..|s| - 1], chars) else s
  }

  /** `s.strip(chars)`: characters of the SET `chars` removed from both ends. */
  function Strip(s: string, chars: set<char>): string {
    RightStrip(LeftStrip(s, chars), chars)
  }

  /** Every character of `s` is in `chars`. */
  predicate AllIn(s: string, chars: set<char>) {
    forall k :: 0 <= k < |s| ==> s[k] in chars
  }

  /** A left strip followed by a right strip splits `s` into the stripped
      prefix, the result `r` and the stripped suffix. */
  lemma StripSplits(s: string, left: string, r: string, chars: set<char>)
    requires EndsWith(s, left) && StartsWith(left, r)
    requires forall i :: 0 <= i < |s| - |left| ==> s[i] in chars
    requires forall i :: |r| <= i < |left| ==> left[i] in chars
    ensures exists p, q :: s == p + r + q && AllIn(p, chars) && AllIn(q, chars)
  {
    var p := s[..|s| - |left|];
    var q := left[|r|..];
    assert s == p + left;
    assert left == r + q;
    assert s == p + r + q;
    assert AllIn(p, chars) by {
      forall k | 0 <= k < |p| ensures p[k] in chars { assert p[k] == s[k]; }
    }
    assert AllIn(q, chars) by {
      forall k | 0 <= k < |q| ensures q[k] in chars { assert q[k] == left[|r| + k]; }
    }
  }

  const Whitespace: set<char> := {' ', '\t', '\n', '\r', '\U{000B}', '\U{000C}'}

  /** `s.removesuffix(suffix)`. */
  function RemoveSuffix(s: string, suffix: string): (r: string)
    ensures EndsWith(s, suffix) ==> r + suffix == s
    ensures !EndsWith(s, suffix) ==> r == s
  {
    if EndsWith(s, suffix) then s[..|s| - |suffix|] else s
  }

  /** `str(n)` for an integer. */
  function IntToString(n: int): (r: string)
    ensures |r| > 0
    decreases if n < 0 then 1 - n else n
  {
    if n < 0 then "-" + IntToString(-n)
    else if n < 10 then [Digit(n)]
    else IntToString(n / 10) + [Digit(n % 10)]
  }

  function Digit(d: int): char
    requires 0 <= d < 10
  {
    "0123456789"[d]
  }

  /** `sep.join(parts)`. */
  function Join(sep: string, parts: seq<string>): string {
    if |parts| == 0 then ""
    else if |parts| == 1 then parts[0]
    else parts[0] + sep + Join(sep, parts[1..])
  }
}
