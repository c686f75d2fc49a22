/**
 The string operations the webhook applies to an inbound body and an outbound
 reply: Python's `str.strip()`, `str.lower()` (as far as it matters for the
 reset command) and the slice `s[:n]`. Strings are sequences of Unicode scalar
 values; a Python `str` indexes code points, and lone surrogates are not
 modelled.
 */
module Text {

  /** Python's `str.isspace()`: the characters `str.strip()` removes by default. */
  predicate IsSpace(c: char) {
    var n := c as int;
    || (0x09 <= n <= 0x0D)
    || (0x1C <= n <= 0x20)
    || n == 0x85 || n == 0xA0 || n == 0x1680
    || (0x2000 <= n <= 0x200A)
    || n == 0x2028 || n == 0x2029 || n == 0x202F || n == 0x205F || n == 0x3000
  }

  predicate AllSpace(s: string) {
    forall i :: 0 <= i < |s| ==> IsSpace(s[i])
  }

  /** Length of the longest all-whitespace prefix of `s`. */
  function Leading(s: string): (n: nat)
    ensures n <= |s|
    ensures forall i :: 0 <= i < n ==> IsSpace(s[i])
    ensures n < |s| ==> !IsSpace(s[n])
  {
    if s == [] || !IsSpace(s[0]) then 0 else 1 + Leading(s[1..])
  }

  /** Length of the longest all-whitespace suffix of `s`. */
  function Trailing(s: string): (n: nat)
    ensures n <= |s|
    ensures forall i :: |s| - n <= i < |s| ==> IsSpace(s[i])
    ensures n < |s| ==> !IsSpace(s[|s| - n - 1])
  {
    if s == [] || !IsSpace(s[|s| - 1]) then 0 else 1 + Trailing(s[..|s| - 1])
  }

  /** True when `s` neither starts nor ends with whitespace. */
  predicate Trimmed(s: string) {
    s == [] || (!IsSpace(s[0]) && !IsSpace(s[|s| - 1]))
  }

  /**
   `s` is whitespace, then `r` starting at index `lo`, then whitespace, and
   `r` itself neither starts nor ends with whitespace.
   */
  predicate SplitsAs(s: string, lo: int, r: string) {
    && 0 <= lo && lo + |r| <= |s|
    && (forall i :: 0 <= i < lo ==> IsSpace(s[i]))
    && (forall i :: lo + |r| <= i < |s| ==> IsSpace(s[i]))
    && s[lo..lo + |r|] == r
    && Trimmed(r)
  }

  /** Python's `s.strip()`: `s` minus its leading and trailing whitespace. */
  function Strip(s: string): (r: string)
    ensures SplitsAs(s, Leading(s), r)
    ensures r == [] <==> AllSpace(s)
  {
    var lo := Leading(s);
    if lo == |s| then []
    else
      var hi := |s| - Trailing(s);
      s[lo..hi]
  }

  /** Any two ways of splitting `s` as whitespace, trimmed core, whitespace agree. */
  lemma SplitUnique(s: string, lo: int, r: string, lo': int, r': string)
    requires SplitsAs(s, lo, r) && SplitsAs(s, lo', r')
    ensures r == r'
  {
  }

  /**
   Whenever `s` is whitespace `a`, a trimmed core `m` and whitespace `b`,
   stripping `s` yields exactly `m`.
   */
  lemma StripUnique(a: string, m: string, b: string)
    requires forall i :: 0 <= i < |a| ==> IsSpace(a[i])
    requires forall i :: 0 <= i < |b| ==> IsSpace(b[i])
    requires Trimmed(m)
    ensures Strip(a + m + b) == m
  {
    var s := a + m + b;
    assert SplitsAs(s, |a|, m) by {
      assert s[|a|..|a| + |m|] == m;
      forall i | |a| + |m| <= i < |s| ensures IsSpace(s[i]) {
        assert s[i] == b[i - |a| - |m|];
      }
    }
    SplitUnique(s, |a|, m, Leading(s), Strip(s));
  }

  /** Stripping twice is stripping once. */
  lemma StripIdempotent(s: string)
    ensures Strip(Strip(s)) == Strip(s)
  {
  }

  /** Python's `str.lower()` on one character, restricted to ASCII capitals. */
  function LowerChar(c: char): char {
    if 'A' <= c <= 'Z' then (c as int - 'A' as int + 'a' as int) as char else c
  }

  /** Lower-casing, character by character. */
  function Lower(s: string): (r: string)
    ensures |r| == |s|
    ensures forall i :: 0 <= i < |s| ==> r[i] == LowerChar(s[i])
  {
    seq(|s|, i requires 0 <= i < |s| => LowerChar(s[i]))
  }

  /** Python's `s[:n]`: the first `min(n, |s|)` characters. */
  function Prefix(s: string, n: nat): (r: string)
    ensures |r| == if |s| < n then |s| else n
    ensures r <= s
  {
    if |s| < n then s else s[..n]
  }
}
