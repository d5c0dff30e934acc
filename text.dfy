/** Character classes, trimming, decimal conversion and positional search over
    strings, as Python's `re` and `str` provide them, restricted to ASCII. */
module Text {
  import opened Wrappers

  /** Python's `str.isspace()` (and the regex class `\s`) on the ASCII range:
      space, tab, line feed, vertical tab, form feed, carriage return and the
      four information separators 0x1C-0x1F. */
  predicate IsSpace(c: char) {
    c == ' ' || ('\t' <= c <= '\r') || ('\U{1C}' <= c <= '\U{1F}')
  }

  /** The regex class `\d` on the ASCII range. */
  predicate IsDigit(c: char) {
    '0' <= c <= '9'
  }

  /** ASCII case folding, as `re.IGNORECASE` compares letters. */
  function Lower(c: char): char {
    if 'A' <= c <= 'Z' then (c as int + 32) as char else c
  }

  predicate AllSpace(t: string) {
    forall k :: 0 <= k < |t| ==> IsSpace(t[k])
  }

  predicate AllDigits(t: string) {
    forall k :: 0 <= k < |t| ==> IsDigit(t[k])
  }

  /** The end of the longest run of characters satisfying `p` that starts at `j`. */
  function SkipWhile(s: string, j: nat, p: char -> bool): (e: nat)
    requires j <= |s|
    ensures j <= e <= |s|
    ensures forall k :: j <= k < e ==> p(s[k])
    ensures e == |s| || !p(s[e])
    decreases |s| - j
  {
    if j == |s| || !p(s[j]) then j else SkipWhile(s, j + 1, p)
  }

  /** The converse of the contract of `SkipWhile`: a run of `p` from `j` that
      ends where `p` fails (or at the end) is the one `SkipWhile` finds. */
  lemma {:induction false} SkipWhileIs(s: string, j: nat, e: nat, p: char -> bool)
    requires j <= e <= |s|
    requires forall k :: j <= k < e ==> p(s[k])
    requires e == |s| || !p(s[e])
    ensures SkipWhile(s, j, p) == e
    decreases e - j
  {
    if j < e {
      SkipWhileIs(s, j + 1, e, p);
    }
  }

  /** The start of the longest run of whitespace that ends at `hi` and does
      not reach below `lo`. */
  function TrailingSpaceStart(s: string, lo: nat, hi: nat): (e: nat)
    requires lo <= hi <= |s|
    ensures lo <= e <= hi
    ensures forall k :: e <= k < hi ==> IsSpace(s[k])
    ensures e == lo || !IsSpace(s[e - 1])
    decreases hi
  {
    if hi == lo || !IsSpace(s[hi - 1]) then hi else TrailingSpaceStart(s, lo, hi - 1)
  }

  /** The number of leading whitespace characters of `s`. */
  function LeadingSpaces(s: string): (i: nat)
    ensures i <= |s| && AllSpace(s[..i]) && (i == |s| || !IsSpace(s[i]))
  {
    var i := SkipWhile(s, 0, IsSpace);
    assert AllSpace(s[..i]);
    i
  }

  /** Python's `str.strip()`: the slice of `s` that starts after its leading
      whitespace and leaves only whitespace behind it. */
  function Strip(s: string): (r: string)
    ensures LeadingSpaces(s) + |r| <= |s|
    ensures r == s[LeadingSpaces(s)..LeadingSpaces(s) + |r|]
    ensures AllSpace(s[LeadingSpaces(s) + |r|..])
    ensures r != [] ==> !IsSpace(r[0]) && !IsSpace(r[|r| - 1])
    ensures r == [] <==> AllSpace(s)
  {
    var i := LeadingSpaces(s);
    var j := TrailingSpaceStart(s, i, |s|);
    assert AllSpace(s[j..]);
    s[i..j]
  }

  /** The value of one ASCII digit. */
  function DigitValue(c: char): (v: nat)
    requires IsDigit(c)
    ensures v < 10
  {
    c as int - '0' as int
  }

  /** Python's `int(t)` for a string of ASCII digits (leading zeros allowed). */
  function DecimalValue(t: string): nat
    requires AllDigits(t)
    decreases |t|
  {
    if t == [] then 0 else 10 * DecimalValue(t[..|t| - 1]) + DigitValue(t[|t| - 1])
  }

  function DigitChar(d: nat): (c: char)
    requires d < 10
    ensures IsDigit(c) && DigitValue(c) == d
  {
    ('0' as int + d) as char
  }

  /** Python's `str(n)` for a non-negative integer: the shortest decimal
      numeral of `n`, which `DecimalValue` reads back as `n`. */
  function NatToDecimal(n: nat): (t: string)
    ensures |t| > 0 && AllDigits(t)
    ensures DecimalValue(t) == n
    ensures n > 0 ==> t[0] != '0'
    ensures n == 0 ==> t == "0"
    decreases n
  {
    if n < 10 then [DigitChar(n)]
    else
      var prefix := NatToDecimal(n / 10);
      var t := prefix + [DigitChar(n % 10)];
      assert t[..|t| - 1] == prefix;
      t
  }

  /** The first position `k` with `from <= k < end` that satisfies `p`: the
      leftmost-match rule of `re.search` and `re.split`. */
  function FirstFrom(p: nat -> bool, from: nat, end: nat): (r: Option<nat>)
    ensures r.Some? ==> from <= r.value < end && p(r.value)
                        && forall k :: from <= k < r.value ==> !p(k)
    ensures r.None? ==> forall k :: from <= k < end ==> !p(k)
    decreases end - from
  {
    if end <= from then None
    else if p(from) then Some(from)
    else FirstFrom(p, from + 1, end)
  }

  /** The converse of the contract of `FirstFrom`: a satisfying position with
      none before it is the one `FirstFrom` finds. */
  lemma {:induction false} FirstFromIs(p: nat -> bool, from: nat, end: nat, i: nat)
    requires from <= i < end && p(i)
    requires forall k :: from <= k < i ==> !p(k)
    ensures FirstFrom(p, from, end) == Some(i)
    decreases i - from
  {
    if from < i {
      FirstFromIs(p, from + 1, end, i);
    }
  }
}
