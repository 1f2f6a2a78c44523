/**
  Character-level helpers shared by the pattern scanners and the date code:
  ASCII case folding (what `str.lower()` and case-insensitive regular
  expressions do on ASCII text), ASCII digits and substring search.
*/
module Text {

  /** Lower-case an ASCII letter; every other character is left alone. */
  function Lower(c: char): (r: char)
    ensures 'A' <= c <= 'Z' ==> r as int == c as int + 32
    ensures !('A' <= c <= 'Z') ==> r == c
    ensures !('A' <= r <= 'Z')
  {
    if 'A' <= c <= 'Z' then (c as int + 32) as char else c
  }

  function LowerStr(s: string): (r: string)
    ensures |r| == |s|
  {
    if s == [] then [] else [Lower(s[0])] + LowerStr(s[1..])
  }

  /** `LowerStr` lower-cases character by character. */
  lemma {:induction false} LowerStrAt(s: string)
    ensures forall i :: 0 <= i < |s| ==> LowerStr(s)[i] == Lower(s[i])
  {
    if s != [] {
      LowerStrAt(s[1..]);
    }
  }

  /** A string none of whose characters is an upper-case ASCII letter. */
  predicate IsLowerCase(s: string) {
    forall i :: 0 <= i < |s| ==> !('A' <= s[i] <= 'Z')
  }

  lemma LowerStrIdempotent(s: string)
    ensures IsLowerCase(LowerStr(s))
    ensures IsLowerCase(s) ==> LowerStr(s) == s
  {
    LowerStrAt(s);
  }

  predicate IsDigit(c: char) {
    '0' <= c <= '9'
  }

  function DigitValue(c: char): (r: nat)
    requires IsDigit(c)
    ensures r < 10
  {
    c as int - '0' as int
  }

  function DigitChar(n: nat): (c: char)
    requires n < 10
    ensures IsDigit(c) && DigitValue(c) == n
  {
    ('0' as int + n) as char
  }

  predicate AllDigits(s: string) {
    forall i :: 0 <= i < |s| ==> IsDigit(s[i])
  }

  /** The decimal value of a string of ASCII digits. */
  function DigitsValue(s: string): (n: nat)
    requires AllDigits(s)
  {
    if s == [] then 0 else DigitsValue(s[..|s| - 1]) * 10 + DigitValue(s[|s| - 1])
  }

  /** `str(n)` for a natural number: its decimal digits, without leading zeros. */
  function NatString(n: nat): (s: string)
    ensures |s| >= 1 && AllDigits(s)
    ensures |s| > 1 ==> s[0] != '0'
  {
    if n < 10 then [DigitChar(n)] else NatString(n / 10) + [DigitChar(n % 10)]
  }

  /** `str(n)` for any integer: a minus sign before the digits of a negative number. */
  function IntString(n: int): string {
    if n < 0 then "-" + NatString(-n) else NatString(n)
  }

  /** Printing a number and reading its digits back gives the number. */
  lemma {:induction false} NatStringValue(n: nat)
    ensures DigitsValue(NatString(n)) == n
  {
    if n >= 10 {
      NatStringValue(n / 10);
      var s := NatString(n);
      assert s[..|s| - 1] == NatString(n / 10);
    }
  }

  /** Distinct numbers print differently. */
  lemma NatStringInjective(m: nat, n: nat)
    requires NatString(m) == NatString(n)
    ensures m == n
  {
    NatStringValue(m);
    NatStringValue(n);
  }

  /** Each item behind `prefix`, in order: an f-string applied item by item. */
  function Prefixed(prefix: string, items: seq<string>): (r: seq<string>)
    ensures |r| == |items|
  {
    if items == [] then [] else Prefixed(prefix, items[..|items| - 1]) + [prefix + items[|items| - 1]]
  }

  /** One more item adds one line. */
  lemma PrefixedStep(prefix: string, items: seq<string>, k: nat)
    requires k < |items|
    ensures Prefixed(prefix, items[..k + 1]) == Prefixed(prefix, items[..k]) + [prefix + items[k]]
  {
    assert items[..k + 1][..k] == items[..k];
  }

  /** The `k`-th line is the `k`-th item behind the prefix. */
  lemma {:induction false} PrefixedAt(prefix: string, items: seq<string>, k: nat)
    requires k < |items|
    ensures Prefixed(prefix, items)[k] == prefix + items[k]
  {
    if k < |items| - 1 {
      assert items[..|items| - 1][k] == items[k];
      PrefixedAt(prefix, items[..|items| - 1], k);
    }
  }

  /** `needle` occurs in `hay` starting at position `p`. */
  predicate OccursAt(hay: string, p: int, needle: string) {
    0 <= p && p + |needle| <= |hay| && hay[p..p + |needle|] == needle
  }

  /** Python's `needle in hay` on strings. */
  predicate Contains(hay: string, needle: string) {
    exists p | 0 <= p <= |hay| - |needle| :: OccursAt(hay, p, needle)
  }
}
