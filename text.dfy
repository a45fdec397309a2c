/**
 * The few string operations of Python that the service relies on: substring
 * membership (`a in b`), `lower()`, `strip()`/`rstrip()`, `startswith`,
 * `endswith`, `' '.join(...)` and `str(int)`.
 */
module Text {

  predicate IsPrefix(p: string, s: string) {
    |p| <= |s| && s[..|p|] == p
  }

  /** `s.endswith(suffix)`. */
  predicate IsSuffix(suffix: string, s: string) {
    |suffix| <= |s| && s[|s| - |suffix|..] == suffix
  }

  /** `needle` occurs in `hay` starting at index `i`. */
  predicate OccursAt(needle: string, hay: string, i: int) {
    0 <= i && i + |needle| <= |hay| && hay[i..i + |needle|] == needle
  }

  /** Python's `needle in hay` on strings: a literal, case-sensitive substring test. */
  predicate IsSubstring(needle: string, hay: string)
    decreases |hay|
  {
    IsPrefix(needle, hay) || (hay != [] && IsSubstring(needle, hay[1..]))
  }

  /** The recursive test agrees with "there is a position where the needle occurs". */
  lemma {:induction false} IsSubstringIffOccurs(needle: string, hay: string)
    ensures IsSubstring(needle, hay) <==> exists i :: OccursAt(needle, hay, i)
    decreases |hay|
  {
    if IsPrefix(needle, hay) {
      assert OccursAt(needle, hay, 0);
    } else if hay != [] {
      IsSubstringIffOccurs(needle, hay[1..]);
      if IsSubstring(needle, hay[1..]) {
        var i :| OccursAt(needle, hay[1..], i);
        assert hay[1..][i..i + |needle|] == hay[i + 1..i + 1 + |needle|];
        assert OccursAt(needle, hay, i + 1);
      }
      if exists i :: OccursAt(needle, hay, i) {
        var i :| OccursAt(needle, hay, i);
        assert i != 0;
        assert hay[1..][i - 1..i - 1 + |needle|] == hay[i..i + |needle|];
        assert OccursAt(needle, hay[1..], i - 1);
      }
    }
  }

  /** The empty string is a substring of every string (so an empty fragment matches everything). */
  lemma EmptyIsSubstring(hay: string)
    ensures IsSubstring("", hay)
  {
    assert IsPrefix("", hay);
  }

  // ---------------------------------------------------------------- case

  function LowerChar(c: char): char {
    if 'A' <= c <= 'Z' then (c as int + 32) as char else c
  }

  /** `s.lower()`, restricted to the ASCII letters A-Z. */
  function Lower(s: string): (r: string)
    ensures |r| == |s|
    ensures forall i :: 0 <= i < |s| ==> r[i] == LowerChar(s[i])
  {
    seq(|s|, i requires 0 <= i < |s| => LowerChar(s[i]))
  }

  predicate IsLowerFixed(s: string) {
    forall i :: 0 <= i < |s| ==> LowerChar(s[i]) == s[i]
  }

  /**
   * Lower-casing cannot destroy an occurrence of a needle written without
   * upper-case letters: what `in` finds in `s` it also finds in `s.lower()`.
   */
  lemma LowerKeepsOccurrence(needle: string, s: string, i: int)
    requires IsLowerFixed(needle)
    requires OccursAt(needle, s, i)
    ensures OccursAt(needle, Lower(s), i)
  {
    assert forall k :: 0 <= k < |needle| ==> Lower(s)[i + k] == LowerChar(s[i + k]) == LowerChar(needle[k]) == needle[k] by {
      forall k | 0 <= k < |needle| ensures s[i + k] == needle[k] {
        assert s[i..i + |needle|][k] == s[i + k];
      }
    }
    assert Lower(s)[i..i + |needle|] == needle;
  }

  /** Lower-casing an already lower-cased string changes nothing. */
  lemma LowerIdempotent(s: string)
    ensures Lower(Lower(s)) == Lower(s)
  {
  }

  // ---------------------------------------------------------------- whitespace

  /**
   * Python's `str.isspace()` for one character: the characters that `strip()`
   * and `rstrip()` without arguments remove.
   */
  predicate IsSpace(c: char) {
    var n := c as int;
    (0x09 <= n <= 0x0D) || (0x1C <= n <= 0x20) || n == 0x85 || n == 0xA0
    || n == 0x1680 || (0x2000 <= n <= 0x200A) || n == 0x2028 || n == 0x2029
    || n == 0x202F || n == 0x205F || n == 0x3000
  }

  predicate AllSpace(s: string) {
    forall i :: 0 <= i < |s| ==> IsSpace(s[i])
  }

  /**
   * `s.rstrip()`: the longest prefix of `s` that does not end in whitespace;
   * everything cut off is whitespace (not only a final newline).
   */
  function RStrip(s: string): (r: string)
    ensures IsPrefix(r, s)
    ensures AllSpace(s[|r|..])
    ensures r == [] || !IsSpace(r[|r| - 1])
  {
    if s != [] && IsSpace(s[|s| - 1]) then
      var r := RStrip(s[..|s| - 1]);
      assert s[..|s| - 1][|r|..] + [s[|s| - 1]] == s[|r|..];
      r
    else s
  }

  /** `s.lstrip()`: drops the leading whitespace. */
  function LStrip(s: string): (r: string)
    ensures IsSuffix(r, s)
    ensures AllSpace(s[..|s| - |r|])
    ensures r == [] || !IsSpace(r[0])
  {
    if s != [] && IsSpace(s[0]) then
      var r := LStrip(s[1..]);
      assert [s[0]] + s[1..][..|s| - 1 - |r|] == s[..|s| - |r|];
      r
    else s
  }

  /** `s.strip()`. */
  function Strip(s: string): string {
    LStrip(RStrip(s))
  }

  /** Stripping leaves nothing exactly when the string is all whitespace. */
  lemma StripEmptyIffAllSpace(s: string)
    ensures Strip(s) == [] <==> AllSpace(s)
  {
    var r := RStrip(s);
    if Strip(s) == [] {
      assert AllSpace(r[..|r|]);
      assert r[..|r|] == r;
      assert r == [];
      assert s[|r|..] == s;
    }
    if AllSpace(s) {
      assert r == [];
    }
  }

  /** A stripped string is its own strip: neither end is whitespace any more. */
  lemma StripIdempotent(s: string)
    ensures Strip(Strip(s)) == Strip(s)
  {
    var t := Strip(s);
    var r := RStrip(s);
    if t != [] {
      assert t == r[|r| - |t|..];
      assert t[|t| - 1] == r[|r| - 1];
      assert RStrip(t) == t;
    }
  }

  // ---------------------------------------------------------------- joining

  /** `sep.join(parts)`. */
  function Join(parts: seq<string>, sep: string): string
    decreases |parts|
  {
    if parts == [] then ""
    else if |parts| == 1 then parts[0]
    else parts[0] + sep + Join(parts[1..], sep)
  }

  /** A substring of either half of a concatenation is a substring of the whole. */
  lemma SubstringOfConcat(needle: string, a: string, b: string)
    ensures IsSubstring(needle, a) ==> IsSubstring(needle, a + b)
    ensures IsSubstring(needle, b) ==> IsSubstring(needle, a + b)
  {
    IsSubstringIffOccurs(needle, a);
    IsSubstringIffOccurs(needle, b);
    IsSubstringIffOccurs(needle, a + b);
    if IsSubstring(needle, a) {
      var i :| OccursAt(needle, a, i);
      assert (a + b)[i..i + |needle|] == a[i..i + |needle|];
      assert OccursAt(needle, a + b, i);
    }
    if IsSubstring(needle, b) {
      var i :| OccursAt(needle, b, i);
      assert (a + b)[|a| + i..|a| + i + |needle|] == b[i..i + |needle|];
      assert OccursAt(needle, a + b, |a| + i);
    }
  }

  /** What `in` finds in one part it also finds in the joined string. */
  lemma {:induction false} JoinKeepsPart(needle: string, parts: seq<string>, sep: string, k: int)
    requires 0 <= k < |parts|
    requires IsSubstring(needle, parts[k])
    ensures IsSubstring(needle, Join(parts, sep))
    decreases |parts|
  {
    if |parts| > 1 {
      var rest := Join(parts[1..], sep);
      if k == 0 {
        SubstringOfConcat(needle, parts[0], sep + rest);
        assert parts[0] + sep + rest == parts[0] + (sep + rest);
      } else {
        JoinKeepsPart(needle, parts[1..], sep, k - 1);
        SubstringOfConcat(needle, parts[0] + sep, rest);
      }
    }
  }

  /** `' '.join(['python3', 'app.py'])` is `python3 app.py`. */
  lemma JoinCommandLine()
    ensures Join(["python3", "app.py"], " ") == "python3 app.py"
  {
    assert ["python3", "app.py"][1..] == ["app.py"];
  }

  // ---------------------------------------------------------------- numbers

  function DigitChar(d: nat): char
    requires d < 10
  {
    ('0' as int + d) as char
  }

  predicate IsDigit(c: char) {
    '0' <= c <= '9'
  }

  function DigitValue(c: char): nat
    requires IsDigit(c)
  {
    c as int - '0' as int
  }

  /** `str(n)` for a natural number: decimal digits, most significant first, no leading zero. */
  function NatToString(n: nat): (r: string)
    ensures |r| >= 1
    ensures forall i :: 0 <= i < |r| ==> IsDigit(r[i])
    ensures r[0] == '0' ==> n == 0
    decreases n
  {
    if n < 10 then [DigitChar(n)] else NatToString(n / 10) + [DigitChar(n % 10)]
  }

  /** `int(s)` for a string of decimal digits. */
  function ParseNat(s: string): nat
    requires forall i :: 0 <= i < |s| ==> IsDigit(s[i])
  {
    if s == [] then 0 else ParseNat(s[..|s| - 1]) * 10 + DigitValue(s[|s| - 1])
  }

  /** Printing a natural number and reading it back gives the number. */
  lemma {:induction false} NatToStringRoundTrip(n: nat)
    ensures ParseNat(NatToString(n)) == n
    decreases n
  {
    if n >= 10 {
      NatToStringRoundTrip(n / 10);
      var s := NatToString(n);
      assert s[..|s| - 1] == NatToString(n / 10);
    }
  }

  /** `str(i)` for any integer (pids, exit codes; a signal-terminated child has a negative code). */
  function IntToString(i: int): string {
    if i < 0 then "-" + NatToString(-i) else NatToString(i)
  }

  function ParseInt(s: string): int
    requires s != [] && (s[0] == '-' || IsDigit(s[0]))
    requires forall i :: 1 <= i < |s| ==> IsDigit(s[i])
  {
    if s[0] == '-' then 0 - ParseNat(s[1..]) as int else ParseNat(s)
  }

  /** `str` on integers is injective: the message text determines the pid it names. */
  lemma IntToStringRoundTrip(i: int)
    ensures ParseInt(IntToString(i)) == i
  {
    if i < 0 {
      NatToStringRoundTrip(-i);
      assert IntToString(i)[1..] == NatToString(-i);
    } else {
      NatToStringRoundTrip(i);
    }
  }

  /** Python's `str(xs)` for a list of integers: `[1, 2, 3]`. */
  function ListRepr(xs: seq<int>): string {
    "[" + JoinInts(xs) + "]"
  }

  /** `str([12, -3])` is `[12, -3]`, and `str([])` is `[]`. */
  lemma ListReprExamples()
    ensures ListRepr([12, -3]) == "[12, -3]"
    ensures ListRepr([]) == "[]"
  {
    assert [12, -3][1..] == [-3];
    assert NatToString(12) == NatToString(1) + [DigitChar(2)];
    assert IntToString(12) == "12";
    assert IntToString(-3) == "-3";
  }

  function JoinInts(xs: seq<int>): string
    decreases |xs|
  {
    if xs == [] then ""
    else if |xs| == 1 then IntToString(xs[0])
    else IntToString(xs[0]) + ", " + JoinInts(xs[1..])
  }
}
