/**
 * The few operations of JavaScript's `String.prototype` that the application relies on
 * (`trim`, `includes`, `split`, `startsWith`, `endsWith`, `replace`, `join`, number-to-text
 * for whole numbers), stated over `seq<char>`.
 */
module Text {
  import opened Wrappers

  /** The code points `String.prototype.trim` removes: ECMAScript WhiteSpace and LineTerminator. */
  predicate IsJsWhitespace(c: char) {
    || c == '\t' || c == '\n' || c == '\U{B}' || c == '\U{C}' || c == '\r' || c == ' '
    || c == '\U{A0}' || c == '\U{1680}' || ('\U{2000}' <= c <= '\U{200A}')
    || c == '\U{2028}' || c == '\U{2029}' || c == '\U{202F}' || c == '\U{205F}'
    || c == '\U{3000}' || c == '\U{FEFF}'
  }

  predicate AllWhitespace(s: string) {
    forall i :: 0 <= i < |s| ==> IsJsWhitespace(s[i])
  }

  /** `trimStart`: drops the leading whitespace and nothing else. */
  function TrimStart(s: string): (r: string)
    ensures |r| <= |s| && r == s[|s| - |r|..]
    ensures AllWhitespace(s[..|s| - |r|])
    ensures r == [] || !IsJsWhitespace(r[0])
  {
    if s != [] && IsJsWhitespace(s[0]) then TrimStart(s[1..]) else s
  }

  /** `trimEnd`: drops the trailing whitespace and nothing else. */
  function TrimEnd(s: string): (r: string)
    ensures |r| <= |s| && r == s[..|r|]
    ensures AllWhitespace(s[|r|..])
    ensures r == [] || !IsJsWhitespace(r[|r| - 1])
  {
    if s != [] && IsJsWhitespace(s[|s| - 1]) then TrimEnd(s[..|s| - 1]) else s
  }

  /** `trim`: the text between the leading and the trailing whitespace. */
  /** `trim`: the text between the leading and the trailing whitespace. */
  function Trim(s: string): (r: string)
    ensures r == [] || (!IsJsWhitespace(r[0]) && !IsJsWhitespace(r[|r| - 1]))
    ensures r == [] <==> AllWhitespace(s)
  {
    var t := TrimStart(s);
    assert t == [] ==> s == s[..|s| - |t|];
    TrimEnd(t)
  }

  /** How many whitespace characters `trim` drops from the front. */
  function LeadingCount(s: string): (k: nat)
    ensures k <= |s| && AllWhitespace(s[..k]) && (k == |s| || !IsJsWhitespace(s[k]))
  {
    |s| - |TrimStart(s)|
  }

  /**
   * What `trim` keeps is the input itself between its whitespace: it starts where the leading
   * whitespace ends, and only whitespace follows it.
   */
  lemma TrimKeepsMiddle(s: string)
    ensures LeadingCount(s) + |Trim(s)| <= |s|
    ensures Trim(s) == s[LeadingCount(s)..LeadingCount(s) + |Trim(s)|]
    ensures AllWhitespace(s[LeadingCount(s) + |Trim(s)|..])
  {
    var t := TrimStart(s);
    var r := TrimEnd(t);
    assert Trim(s) == r;
    SliceOfSuffix(s, |s| - |t|, t, |r|);
  }

  lemma SliceOfSuffix(s: string, k: nat, t: string, n: nat)
    requires k <= |s| && t == s[k..] && n <= |t|
    ensures s[k..k + n] == t[..n] && s[k + n..] == t[n..]
  {
  }

  /** Text that neither starts nor ends with whitespace is its own trim. */
  lemma TrimTrimmed(s: string)
    requires s == [] || (!IsJsWhitespace(s[0]) && !IsJsWhitespace(s[|s| - 1]))
    ensures Trim(s) == s
  {
  }

  lemma TrimIdempotent(s: string)
    ensures Trim(Trim(s)) == Trim(s)
  {
  }

  /**
   * `length`: the number of UTF-16 code units, two for a character outside the Basic
   * Multilingual Plane.
   */
  function Utf16Length(s: string): (n: nat)
    ensures |s| <= n <= 2 * |s|
  {
    if s == [] then 0 else (if s[0] < '\U{10000}' then 1 else 2) + Utf16Length(s[1..])
  }

  /** Text within the Basic Multilingual Plane has one code unit per character. */
  lemma {:induction false} Utf16LengthBmp(s: string)
    requires forall i :: 0 <= i < |s| ==> s[i] < '\U{10000}'
    ensures Utf16Length(s) == |s|
    decreases |s|
  {
    if s != [] {
      assert s[0] < '\U{10000}';
      Utf16LengthBmp(s[1..]);
    }
  }

  /** The length of a concatenation is the sum of the lengths. */
  lemma {:induction false} Utf16LengthAppend(a: string, b: string)
    ensures Utf16Length(a + b) == Utf16Length(a) + Utf16Length(b)
    decreases |a|
  {
    if a != [] {
      assert (a + b)[0] == a[0] && (a + b)[1..] == a[1..] + b;
      Utf16LengthAppend(a[1..], b);
    } else {
      assert a + b == b;
    }
  }

  /** One character outside the Basic Multilingual Plane, such as an emoji, has length 2. */
  lemma AstralCharLength(c: char)
    requires c >= '\U{10000}'
    ensures Utf16Length([c]) == 2
  {
    assert [c][1..] == [];
  }

  predicate StartsWith(s: string, prefix: string) {
    |prefix| <= |s| && s[..|prefix|] == prefix
  }

  predicate EndsWith(s: string, suffix: string) {
    |suffix| <= |s| && s[|s| - |suffix|..] == suffix
  }

  predicate OccursAt(s: string, pattern: string, i: nat) {
    i + |pattern| <= |s| && s[i..i + |pattern|] == pattern
  }

  /** The first occurrence of `pattern` in `s` at or after `from` (`indexOf(pattern, from)`). */
  function FindFrom(s: string, pattern: string, from: nat): (r: Option<nat>)
    decreases |s| - from
    ensures r.Some? ==> from <= r.value && OccursAt(s, pattern, r.value)
    ensures r.Some? ==> forall j: nat :: from <= j < r.value ==> !OccursAt(s, pattern, j)
    ensures r.None? ==> forall j: nat :: from <= j ==> !OccursAt(s, pattern, j)
  {
    if from + |pattern| > |s| then None
    else if s[from..from + |pattern|] == pattern then Some(from)
    else FindFrom(s, pattern, from + 1)
  }

  function Find(s: string, pattern: string): Option<nat> {
    FindFrom(s, pattern, 0)
  }

  /** `includes`. */
  predicate Contains(s: string, pattern: string) {
    Find(s, pattern).Some?
  }

  /**
   * A delimiter whose last character occurs nowhere else in it (such as `]]>`) is found exactly
   * where it was put after text that does not contain it: no occurrence can straddle the seam.
   */
  lemma {:induction false} FindAfter(x: string, d: string, y: string)
    requires |d| > 0 && d[|d| - 1] !in d[..|d| - 1]
    requires !Contains(x, d)
    ensures Find(x + d + y, d) == Some(|x|)
  {
    var s := x + d + y;
    assert OccursAt(s, d, |x|) by {
      assert s[|x|..|x| + |d|] == d;
    }
    forall j: nat | j < |x|
      ensures !OccursAt(s, d, j)
    {
      if OccursAt(s, d, j) && j + |d| <= |x| {
        assert x[j..j + |d|] == s[j..j + |d|];
        assert OccursAt(x, d, j);
      }
    }
  }

  /** The index of the first `c` in `s`. */
  function IndexOfChar(s: string, c: char): (i: nat)
    requires c in s
    ensures i < |s| && s[i] == c && c !in s[..i]
  {
    if s[0] == c then 0 else 1 + IndexOfChar(s[1..], c)
  }

  /** `join(sep)`. */
  function Join(parts: seq<string>, sep: string): string {
    if |parts| == 0 then ""
    else if |parts| == 1 then parts[0]
    else parts[0] + sep + Join(parts[1..], sep)
  }

  /** `split(sep)` for a one-character separator: the text between consecutive separators. */
  function Split(s: string, sep: char): (parts: seq<string>)
    ensures |parts| >= 1
    ensures forall i :: 0 <= i < |parts| ==> sep !in parts[i]
    decreases |s|
  {
    if sep !in s then [s]
    else
      var i := IndexOfChar(s, sep);
      [s[..i]] + Split(s[i + 1..], sep)
  }

  /** Joining the fields with the separator gives back the text. */
  lemma {:induction false} SplitThenJoin(s: string, sep: char)
    ensures Join(Split(s, sep), [sep]) == s
    decreases |s|
  {
    if sep in s {
      var i := IndexOfChar(s, sep);
      var rest := Split(s[i + 1..], sep);
      var parts := Split(s, sep);
      assert parts == [s[..i]] + rest;
      assert |parts| > 1 && parts[0] == s[..i] && parts[1..] == rest;
      assert Join(parts, [sep]) == s[..i] + [sep] + Join(rest, [sep]);
      SplitThenJoin(s[i + 1..], sep);
      assert s == s[..i] + [sep] + s[i + 1..];
    }
  }

  /** The first field of `split(sep)`: everything before the first separator. */
  lemma SplitHead(s: string, sep: char)
    ensures StartsWith(s, Split(s, sep)[0])
    ensures |Split(s, sep)[0]| == |s| || s[|Split(s, sep)[0]|] == sep
  {
  }

  /** `replace(/c/g, '')`: every `c` removed, everything else kept in order. */
  function RemoveAll(s: string, c: char): (r: string)
    ensures c !in r
    ensures forall x :: x in r <==> x in s && x != c
  {
    if s == [] then []
    else if s[0] == c then RemoveAll(s[1..], c)
    else [s[0]] + RemoveAll(s[1..], c)
  }

  /** Removal works character by character: a lone character is kept exactly when it is not `c`. */
  lemma RemoveAllOne(x: char, c: char)
    ensures RemoveAll([x], c) == if x == c then [] else [x]
  {
    assert [x][1..] == [];
  }

  /** Removal keeps order and multiplicity: it distributes over concatenation. */
  lemma {:induction false} RemoveAllAppend(a: string, b: string, c: char)
    ensures RemoveAll(a + b, c) == RemoveAll(a, c) + RemoveAll(b, c)
    decreases |a|
  {
    if a != [] {
      assert (a + b)[0] == a[0] && (a + b)[1..] == a[1..] + b;
      RemoveAllAppend(a[1..], b, c);
    } else {
      assert a + b == b;
    }
  }

  /** `toUpperCase` on one character, restricted to ASCII letters. */
  function UpperAscii(c: char): char {
    if 'a' <= c <= 'z' then (c as int - 32) as char else c
  }

  function DigitChar(d: nat): (c: char)
    requires d < 10
    ensures '0' <= c <= '9'
  {
    (48 + d) as char
  }

  predicate IsDigits(s: string) {
    forall i :: 0 <= i < |s| ==> '0' <= s[i] <= '9'
  }

  /** The decimal text JavaScript gives a non-negative whole number in a template string. */
  function NatToString(n: nat): (s: string)
    ensures |s| >= 1 && IsDigits(s)
    ensures s[0] == '0' ==> n == 0
    decreases n
  {
    if n < 10 then [DigitChar(n)] else NatToString(n / 10) + [DigitChar(n % 10)]
  }

  /** The number a string of decimal digits denotes. */
  function DigitsValue(s: string): nat
    requires IsDigits(s)
  {
    if s == [] then 0 else DigitsValue(s[..|s| - 1]) * 10 + (s[|s| - 1] as int - 48)
  }

  lemma {:induction false} DigitsRoundTrip(n: nat)
    ensures DigitsValue(NatToString(n)) == n
  {
    if n >= 10 {
      DigitsRoundTrip(n / 10);
      var s := NatToString(n);
      assert s[..|s| - 1] == NatToString(n / 10);
    }
  }
}
