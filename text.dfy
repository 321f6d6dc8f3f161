/** Python 2 byte-string operations the modelled code relies on: character
    classes of the `re` module and of `str.strip`, ASCII case folding,
    `str(n)` and `int(s)` on decimal digits, `split` and `join`. */
module Text {

  /** `\s` of `re` and the whitespace of `str.strip()` for byte strings. */
  predicate IsSpace(c: char) {
    c == ' ' || c == '\t' || c == '\n' || c == '\r' || c == '\U{0B}' || c == '\U{0C}'
  }

  /** `\d` of `re` for byte strings. */
  predicate IsDigit(c: char) {
    '0' <= c <= '9'
  }

  /** `\w` of `re` for byte strings without LOCALE or UNICODE flags. */
  predicate IsWordChar(c: char) {
    ('a' <= c <= 'z') || ('A' <= c <= 'Z') || IsDigit(c) || c == '_'
  }

  predicate AllSpace(s: string) {
    forall i :: 0 <= i < |s| ==> IsSpace(s[i])
  }

  predicate AllDigits(s: string) {
    forall i :: 0 <= i < |s| ==> IsDigit(s[i])
  }

  /** ASCII upper-casing of one character, `str.upper()` in the C locale. */
  function UpperChar(c: char): (u: char)
    ensures 'a' <= c <= 'z' ==> u as int == c as int - 32
    ensures !('a' <= c <= 'z') ==> u == c
  {
    if 'a' <= c <= 'z' then (c as int - 32) as char else c
  }

  function Upper(s: string): (u: string)
    ensures |u| == |s|
    ensures forall i :: 0 <= i < |s| ==> u[i] == UpperChar(s[i])
  {
    if s == [] then [] else [UpperChar(s[0])] + Upper(s[1..])
  }

  /** `c * n` in Python: `n` copies of `c`, none when `n` is not positive. */
  function Repeat(c: char, n: int): (r: string)
    ensures |r| == if n <= 0 then 0 else n
    ensures forall i :: 0 <= i < |r| ==> r[i] == c
    decreases n
  {
    if n <= 0 then [] else [c] + Repeat(c, n - 1)
  }

  // ---------------------------------------------------------------------
  // str.strip()

  /** `s` without its leading whitespace. */
  function TrimStart(s: string): (r: string)
    ensures |r| <= |s| && r == s[|s| - |r|..]
    ensures AllSpace(s[..|s| - |r|])
    ensures r == [] || !IsSpace(r[0])
  {
    if s != [] && IsSpace(s[0]) then TrimStart(s[1..]) else s
  }

  /** `s` without its trailing whitespace. */
  function TrimEnd(s: string): (r: string)
    ensures |r| <= |s| && r == s[..|r|]
    ensures AllSpace(s[|r|..])
    ensures r == [] || !IsSpace(r[|r| - 1])
  {
    if s != [] && IsSpace(s[|s| - 1]) then TrimEnd(s[..|s| - 1]) else s
  }

  /** `str.strip()`: the longest slice of `s` that neither starts nor ends
      with whitespace, once the whitespace around it is removed. */
  function Strip(s: string): (r: string)
    ensures r == [] || (!IsSpace(r[0]) && !IsSpace(r[|r| - 1]))
    ensures r == [] ==> AllSpace(s)
    ensures exists i, j :: 0 <= i <= j <= |s| && r == s[i..j] && AllSpace(s[..i]) && AllSpace(s[j..])
  {
    var t := TrimStart(s);
    var r := TrimEnd(t);
    var i := |s| - |t|;
    assert r == s[i..i + |r|] && AllSpace(s[i + |r|..]) by {
      assert t[|r|..] == s[i + |r|..];
    }
    r
  }

  // ---------------------------------------------------------------------
  // str(n) and the value of a run of decimal digits

  function DigitChar(d: nat): (c: char)
    requires d < 10
    ensures IsDigit(c)
  {
    ('0' as int + d) as char
  }

  function DigitValue(c: char): (d: nat)
    requires IsDigit(c)
    ensures d < 10
  {
    c as int - '0' as int
  }

  /** The number a run of decimal digits denotes (most significant first). */
  function DigitsValue(s: string): nat
    requires AllDigits(s)
  {
    if s == [] then 0 else 10 * DigitsValue(s[..|s| - 1]) + DigitValue(s[|s| - 1])
  }

  /** `str(n)` for a non-negative integer: its decimal digits with no
      leading zero. */
  function DecimalString(n: nat): (r: string)
    ensures |r| >= 1 && AllDigits(r)
    ensures r[0] == '0' ==> n == 0
  {
    if n < 10 then [DigitChar(n)] else DecimalString(n / 10) + [DigitChar(n % 10)]
  }

  /** Reading back `str(n)` gives `n`. */
  lemma {:induction false} DecimalStringValue(n: nat)
    ensures DigitsValue(DecimalString(n)) == n
  {
    var r := DecimalString(n);
    if n >= 10 {
      assert r[..|r| - 1] == DecimalString(n / 10);
      DecimalStringValue(n / 10);
    }
  }

  /** Length of the run of digits starting at `i` (a greedy `\d+`). */
  function DigitRun(s: string, i: nat): (n: nat)
    requires i <= |s|
    ensures i + n <= |s| && forall k :: i <= k < i + n ==> IsDigit(s[k])
    ensures i + n < |s| ==> !IsDigit(s[i + n])
    decreases |s| - i
  {
    if i < |s| && IsDigit(s[i]) then 1 + DigitRun(s, i + 1) else 0
  }

  /** A run of digits that ends the text or is followed by a non-digit is
      the run DigitRun measures. */
  lemma DigitRunUnique(s: string, i: nat, n: nat)
    requires i + n <= |s| && forall k :: i <= k < i + n ==> IsDigit(s[k])
    requires i + n < |s| ==> !IsDigit(s[i + n])
    ensures DigitRun(s, i) == n
  {
  }

  /** The middle piece of `p + d + q`, when it is a run of digits. */
  lemma RunAt(s: string, p: string, d: string, q: string)
    requires s == p + d + q && AllDigits(d)
    ensures s[|p|..|p| + |d|] == d
    ensures forall k :: |p| <= k < |p| + |d| ==> IsDigit(s[k])
  {
    assert forall k :: |p| <= k < |p| + |d| ==> s[k] == d[k - |p|];
  }

  // ---------------------------------------------------------------------
  // Substring search, split and join

  predicate OccursAt(s: string, sep: string, j: int) {
    0 <= j && j + |sep| <= |s| && s[j..j + |sep|] == sep
  }

  /** Index of the first occurrence of `sep` in `s` at or after `from`, or -1. */
  function IndexFrom(s: string, sep: string, from: nat): (r: int)
    requires |sep| > 0
    ensures r == -1 || (from <= r && OccursAt(s, sep, r))
    ensures forall j :: from <= j && (r == -1 || j < r) ==> !OccursAt(s, sep, j)
    decreases |s| - from
  {
    if from + |sep| > |s| then -1
    else if s[from..from + |sep|] == sep then from
    else IndexFrom(s, sep, from + 1)
  }

  /** `str.find(sep)`. */
  function IndexOf(s: string, sep: string): (r: int)
    requires |sep| > 0
    ensures r == -1 || OccursAt(s, sep, r)
    ensures forall j :: 0 <= j && (r == -1 || j < r) ==> !OccursAt(s, sep, j)
  {
    IndexFrom(s, sep, 0)
  }

  /** `sep.join(pieces)`. */
  function Join(pieces: seq<string>, sep: string): string
  {
    if |pieces| == 0 then []
    else if |pieces| == 1 then pieces[0]
    else pieces[0] + sep + Join(pieces[1..], sep)
  }

  /** `s.split(sep)` for a non-empty separator: the pieces between the
      occurrences of `sep`, found left to right without overlap. */
  function SplitOn(s: string, sep: string): (r: seq<string>)
    requires |sep| > 0
    ensures |r| >= 1
    ensures Join(r, sep) == s
    ensures forall k, j :: 0 <= k < |r| ==> !OccursAt(r[k], sep, j)
    decreases |s|
  {
    var i := IndexOf(s, sep);
    if i < 0 then [s]
    else
      var rest := SplitOn(s[i + |sep|..], sep);
      assert s == s[..i] + sep + s[i + |sep|..];
      assert forall j :: !OccursAt(s[..i], sep, j) by {
        forall j | OccursAt(s[..i], sep, j) ensures false {
          assert s[j..j + |sep|] == s[..i][j..j + |sep|];
          assert OccursAt(s, sep, j);
        }
      }
      [s[..i]] + rest
  }

  /** `s.split(c, 1)`: the text before the first `c` and the text after
      it, or `[s]` when `c` does not occur. */
  function SplitFirst(s: string, c: char): (r: seq<string>)
    ensures c !in s ==> r == [s]
    ensures c in s ==> |r| == 2 && c !in r[0] && s == r[0] + [c] + r[1]
  {
    if s == [] then [s]
    else if s[0] == c then [[], s[1..]]
    else
      var rest := SplitFirst(s[1..], c);
      if |rest| == 1 then [s] else [[s[0]] + rest[0], rest[1]]
  }

  /** Splitting at the first `c` recovers the text before it and the text
      after it, whatever the latter holds. */
  lemma {:induction false} SplitFirstAt(a: string, b: string, c: char)
    requires c !in a
    ensures SplitFirst(a + [c] + b, c) == [a, b]
  {
    var s := a + [c] + b;
    if a != [] {
      assert s[1..] == a[1..] + [c] + b;
      SplitFirstAt(a[1..], b, c);
      assert [s[0]] + a[1..] == a;
    } else {
      assert s[1..] == b;
    }
  }
}
