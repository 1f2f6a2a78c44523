/**
  The regular expressions of the priority table, written as scanners.
  `re.search` returns the leftmost match; at one position the engine tries
  alternatives in order, and a greedy optional part is tried before its absence,
  so every case-insensitive pattern of the table but one is a list of literal
  alternatives: `immediate(ly)?` is ["immediately", "immediate"],
  `follow[- ]?up` is ["follow-up", "follow up", "followup"], and so on. The
  remaining one, `within \d+ hours?`, and the case-sensitive
  `due.*?(\d{4}-\d{2}-\d{2})` have scanners of their own.
*/
module Patterns {
  import opened Wrappers
  import opened Text

  datatype Pattern =
    | Literals(alternatives: seq<string>)   // lower-case alternatives, in the order tried
    | WithinHours                           // `within \d+ hours?`

  /** `lit` (lower case) matches `s` at `p`, ignoring ASCII case. */
  predicate MatchesCI(s: string, p: nat, lit: string) {
    p + |lit| <= |s| && LowerStr(s[p..p + |lit|]) == lit
  }

  /** The text matched at `p` by the first alternative from index `k` on that matches there. */
  function LiteralFrom(alternatives: seq<string>, s: string, p: nat, k: nat): Option<string>
    requires k <= |alternatives|
    decreases |alternatives| - k
  {
    if k == |alternatives| then None
    else if MatchesCI(s, p, alternatives[k]) then Some(s[p..p + |alternatives[k]|])
    else LiteralFrom(alternatives, s, p, k + 1)
  }

  lemma {:induction false} LiteralFromFirst(alternatives: seq<string>, s: string, p: nat, k: nat)
    requires k <= |alternatives|
    decreases |alternatives| - k
    ensures LiteralFrom(alternatives, s, p, k).Some? <==> exists j :: k <= j < |alternatives| && MatchesCI(s, p, alternatives[j])
    ensures LiteralFrom(alternatives, s, p, k).Some? ==>
              exists j :: k <= j < |alternatives| && MatchesCI(s, p, alternatives[j])
                          && LiteralFrom(alternatives, s, p, k).value == s[p..p + |alternatives[j]|]
                          && forall j' :: k <= j' < j ==> !MatchesCI(s, p, alternatives[j'])
  {
    if k < |alternatives| && !MatchesCI(s, p, alternatives[k]) {
      LiteralFromFirst(alternatives, s, p, k + 1);
    }
  }

  /** The text matched at `p` by the first alternative that matches there. */
  function LiteralAt(alternatives: seq<string>, s: string, p: nat): Option<string> {
    LiteralFrom(alternatives, s, p, 0)
  }

  /** An alternative matches at `p` exactly when one does, and the text is that of the first one that does. */
  lemma LiteralAtFirst(alternatives: seq<string>, s: string, p: nat)
    ensures LiteralAt(alternatives, s, p).Some? <==> exists k :: 0 <= k < |alternatives| && MatchesCI(s, p, alternatives[k])
    ensures LiteralAt(alternatives, s, p).Some? ==>
              exists k :: 0 <= k < |alternatives| && MatchesCI(s, p, alternatives[k])
                          && LiteralAt(alternatives, s, p).value == s[p..p + |alternatives[k]|]
                          && forall k' :: 0 <= k' < k ==> !MatchesCI(s, p, alternatives[k'])
  {
    LiteralFromFirst(alternatives, s, p, 0);
  }

  /** End of the run of ASCII digits that starts at `i`. */
  function DigitRunEnd(s: string, i: nat): (j: nat)
    requires i <= |s|
    decreases |s| - i
    ensures i <= j <= |s|
    ensures forall k :: i <= k < j ==> IsDigit(s[k])
    ensures j < |s| ==> !IsDigit(s[j])
  {
    if i < |s| && IsDigit(s[i]) then DigitRunEnd(s, i + 1) else i
  }

  /**
    The text `within \d+ hours?` matches at `p`. `\d+` is greedy, and the blank
    that must follow it is not a digit, so the digit run is taken whole.
  */
  function WithinAt(s: string, p: nat): (r: Option<string>)
    ensures r.Some? ==> MatchesCI(s, p, "within ") && |r.value| >= 13
    ensures r.Some? ==> p + |r.value| <= |s| && r.value == s[p..p + |r.value|]
  {
    if !MatchesCI(s, p, "within ") then None
    else
      var q := DigitRunEnd(s, p + 7);
      if q == p + 7 || !MatchesCI(s, q, " hour") then None
      else if q + 5 < |s| && Lower(s[q + 5]) == 's' then Some(s[p..q + 6])
      else Some(s[p..q + 5])
  }

  /** `within \d+ hour` matches at `p` with `n` digits: "within ", then `n` >= 1 digits, then " hour", in any ASCII case. */
  predicate WithinDigitsHour(s: string, p: nat, n: nat) {
    MatchesCI(s, p, "within ") && n >= 1 && p + 7 + n <= |s|
    && AllDigits(s[p + 7..p + 7 + n]) && MatchesCI(s, p + 7 + n, " hour")
  }

  /** The greedy digit run ends where " hour" begins. */
  lemma WithinRunEnd(s: string, p: nat, n: nat)
    requires WithinDigitsHour(s, p, n)
    ensures DigitRunEnd(s, p + 7) == p + 7 + n
  {
    var q := DigitRunEnd(s, p + 7);
    LowerStrAt(s[p + 7 + n..p + 12 + n]);
    assert s[p + 7 + n] == ' ';
  }

  /** The optional `s` of `hours?` is there exactly when the next character folds to 's'. */
  lemma PluralAt(s: string, q: nat)
    requires q < |s|
    ensures MatchesCI(s, q, "s") <==> Lower(s[q]) == 's'
  {
    LowerStrAt(s[q..q + 1]);
  }

  /**
    `within \d+ hours?` matches at `p` exactly when "within ", a run of digits
    and " hour" follow one another there; the match then ends after " hour",
    and takes a following `s` (in either case) exactly when there is one.
  */
  lemma WithinAtMatches(s: string, p: nat)
    ensures WithinAt(s, p).Some? <==> exists n: nat :: WithinDigitsHour(s, p, n)
    ensures forall n: nat :: WithinDigitsHour(s, p, n) && MatchesCI(s, p + 12 + n, "s") ==>
              WithinAt(s, p) == Some(s[p..p + 13 + n])
    ensures forall n: nat :: WithinDigitsHour(s, p, n) && !MatchesCI(s, p + 12 + n, "s") ==>
              WithinAt(s, p) == Some(s[p..p + 12 + n])
  {
    if WithinAt(s, p).Some? {
      var q := DigitRunEnd(s, p + 7);
      assert WithinDigitsHour(s, p, q - p - 7);
    }
    forall n: nat | WithinDigitsHour(s, p, n)
      ensures MatchesCI(s, p + 12 + n, "s") ==> WithinAt(s, p) == Some(s[p..p + 13 + n])
      ensures !MatchesCI(s, p + 12 + n, "s") ==> WithinAt(s, p) == Some(s[p..p + 12 + n])
    {
      WithinRunEnd(s, p, n);
      if p + 12 + n < |s| {
        PluralAt(s, p + 12 + n);
      }
    }
  }

  /** The text `pat` matches at position `p` of `s`, if any. */
  function MatchAt(pat: Pattern, s: string, p: nat): Option<string> {
    match pat
    case Literals(alternatives) => LiteralAt(alternatives, s, p)
    case WithinHours => WithinAt(s, p)
  }

  /** Leftmost match at or after `from`. */
  function SearchFrom(pat: Pattern, s: string, from: nat): Option<string>
    decreases |s| + 1 - from
  {
    if from > |s| then None
    else if MatchAt(pat, s, from).Some? then MatchAt(pat, s, from)
    else SearchFrom(pat, s, from + 1)
  }

  /** `p` is the first position at or after `from` where `pat` matches. */
  ghost predicate FirstMatchAt(pat: Pattern, s: string, from: nat, p: nat) {
    from <= p <= |s| && MatchAt(pat, s, p).Some? && forall q :: from <= q < p ==> MatchAt(pat, s, q).None?
  }

  lemma {:induction false} SearchFromLeftmost(pat: Pattern, s: string, from: nat)
    decreases |s| + 1 - from
    ensures SearchFrom(pat, s, from).Some? <==> exists p :: from <= p <= |s| && MatchAt(pat, s, p).Some?
    ensures SearchFrom(pat, s, from).Some? ==>
              exists p: nat :: FirstMatchAt(pat, s, from, p) && MatchAt(pat, s, p) == SearchFrom(pat, s, from)
  {
    if from > |s| {
      return;
    }
    if MatchAt(pat, s, from).Some? {
      assert FirstMatchAt(pat, s, from, from) && MatchAt(pat, s, from) == SearchFrom(pat, s, from);
      return;
    }
    assert SearchFrom(pat, s, from) == SearchFrom(pat, s, from + 1);
    SearchFromLeftmost(pat, s, from + 1);
    if SearchFrom(pat, s, from + 1).Some? {
      var p: nat :| FirstMatchAt(pat, s, from + 1, p) && MatchAt(pat, s, p) == SearchFrom(pat, s, from + 1);
      forall q | from <= q < p
        ensures MatchAt(pat, s, q).None?
      {
        if q > from {
          assert from + 1 <= q < p;
        }
      }
      assert FirstMatchAt(pat, s, from, p);
    } else {
      forall p | from <= p <= |s|
        ensures MatchAt(pat, s, p).None?
      {
        if p > from {
          assert from + 1 <= p <= |s|;
        }
      }
    }
  }

  /** `re.search(pat, s, re.IGNORECASE)`: the text of the leftmost match. */
  function Search(pat: Pattern, s: string): Option<string> {
    SearchFrom(pat, s, 0)
  }

  /** `Search` finds a match exactly when there is one, and reports the leftmost. */
  lemma SearchLeftmost(pat: Pattern, s: string)
    ensures Search(pat, s).Some? <==> exists p :: 0 <= p <= |s| && MatchAt(pat, s, p).Some?
    ensures Search(pat, s).Some? ==>
              exists p: nat :: FirstMatchAt(pat, s, 0, p) && MatchAt(pat, s, p) == Search(pat, s)
  {
    SearchFromLeftmost(pat, s, 0);
  }

  /** A pattern made of one literal is found exactly when the text contains it, in any ASCII case. */
  lemma SearchLiteral(lit: string, s: string)
    ensures Search(Literals([lit]), s).Some? <==> exists p :: 0 <= p <= |s| && MatchesCI(s, p, lit)
  {
    SearchLeftmost(Literals([lit]), s);
    if Search(Literals([lit]), s).Some? {
      var p :| 0 <= p <= |s| && MatchAt(Literals([lit]), s, p).Some?;
      LiteralAtFirst([lit], s, p);
      assert MatchesCI(s, p, [lit][0]);
    } else {
      forall p | 0 <= p <= |s| ensures !MatchesCI(s, p, lit) {
        assert MatchAt(Literals([lit]), s, p).None?;
        LiteralAtFirst([lit], s, p);
        assert [lit][0] == lit;
      }
    }
  }

  // ---- `due.*?(\d{4}-\d{2}-\d{2})`, case-sensitive ----

  /** `\d{4}-\d{2}-\d{2}` matches at `j`. */
  predicate DateShapeAt(s: string, j: nat) {
    j + 10 <= |s|
    && IsDigit(s[j]) && IsDigit(s[j + 1]) && IsDigit(s[j + 2]) && IsDigit(s[j + 3])
    && s[j + 4] == '-' && IsDigit(s[j + 5]) && IsDigit(s[j + 6])
    && s[j + 7] == '-' && IsDigit(s[j + 8]) && IsDigit(s[j + 9])
  }

  /** No line break in `s[a..b]` (`.` does not match one). */
  predicate NoNewline(s: string, a: nat, b: nat)
    requires a <= b <= |s|
  {
    forall k :: a <= k < b ==> s[k] != '\n'
  }

  /** The regex matches with "due" at `i` and the date at `j`. */
  predicate DueMatch(s: string, i: nat, j: nat) {
    OccursAt(s, i, "due") && i + 3 <= j && DateShapeAt(s, j) && NoNewline(s, i + 3, j)
  }

  /** The lazy `.*?`: the first date shape at or after `j` that no line break precedes. */
  function LazyDateFrom(s: string, j: nat): Option<nat>
    requires j <= |s|
    decreases |s| - j
  {
    if DateShapeAt(s, j) then Some(j)
    else if j < |s| && s[j] != '\n' then LazyDateFrom(s, j + 1)
    else None
  }

  lemma {:induction false} LazyDateFirst(s: string, j: nat)
    requires j <= |s|
    decreases |s| - j
    ensures LazyDateFrom(s, j).Some? ==>
              var k := LazyDateFrom(s, j).value;
              j <= k && DateShapeAt(s, k) && NoNewline(s, j, k)
              && forall k' :: j <= k' < k ==> !DateShapeAt(s, k')
    ensures LazyDateFrom(s, j).None? ==> forall k :: j <= k <= |s| && DateShapeAt(s, k) ==> !NoNewline(s, j, k)
  {
    if !DateShapeAt(s, j) && j < |s| && s[j] != '\n' {
      LazyDateFirst(s, j + 1);
    }
  }

  function DueSearchFrom(s: string, i: nat): Option<string>
    decreases |s| + 1 - i
  {
    if i + 3 > |s| then None
    else if s[i..i + 3] == "due" && LazyDateFrom(s, i + 3).Some? then
      var j := LazyDateFrom(s, i + 3).value;
      if j + 10 <= |s| then Some(s[j..j + 10]) else None
    else DueSearchFrom(s, i + 1)
  }

  /** No match can start at `i` when the scan moves past it. */
  lemma NoDueMatchAt(s: string, i: nat)
    requires i + 3 <= |s|
    requires !(s[i..i + 3] == "due" && LazyDateFrom(s, i + 3).Some?)
    ensures forall j: nat :: !DueMatch(s, i, j)
  {
    LazyDateFirst(s, i + 3);
  }

  lemma {:induction false} DueSearchFromFinds(s: string, i: nat)
    decreases |s| + 1 - i
    ensures DueSearchFrom(s, i).Some? <==> exists a: nat, j: nat :: i <= a && DueMatch(s, a, j)
  {
    if i + 3 <= |s| {
      if s[i..i + 3] == "due" && LazyDateFrom(s, i + 3).Some? {
        LazyDateFirst(s, i + 3);
        var j := LazyDateFrom(s, i + 3).value;
        assert DueMatch(s, i, j);
      } else {
        DueSearchFromFinds(s, i + 1);
        NoDueMatchAt(s, i);
      }
    }
  }

  /** `a`, `j` is the match the scan from `i` reports: the leftmost "due", then the first date after it. */
  ghost predicate LeftmostDue(s: string, i: nat, a: nat, j: nat) {
    i <= a && DueMatch(s, a, j)
    && (forall a': nat, j': nat :: i <= a' < a ==> !DueMatch(s, a', j'))
    && (forall j': nat :: j' < j ==> !DueMatch(s, a, j'))
  }

  /** Where the scan stops at `i`, the match it reports is the leftmost one. */
  lemma DueFoundAt(s: string, i: nat)
    requires i + 3 <= |s| && s[i..i + 3] == "due" && LazyDateFrom(s, i + 3).Some?
    ensures DueSearchFrom(s, i).Some?
    ensures LeftmostDue(s, i, i, LazyDateFrom(s, i + 3).value)
    ensures DueSearchFrom(s, i).value == s[LazyDateFrom(s, i + 3).value..LazyDateFrom(s, i + 3).value + 10]
  {
    LazyDateFirst(s, i + 3);
  }

  lemma {:induction false} DueSearchFromLeftmost(s: string, i: nat)
    decreases |s| + 1 - i
    ensures DueSearchFrom(s, i).Some? ==>
              exists a: nat, j: nat :: LeftmostDue(s, i, a, j) && DueSearchFrom(s, i).value == s[j..j + 10]
  {
    if i + 3 > |s| {
      return;
    }
    if s[i..i + 3] == "due" && LazyDateFrom(s, i + 3).Some? {
      DueFoundAt(s, i);
      var j := LazyDateFrom(s, i + 3).value;
      assert LeftmostDue(s, i, i, j) && DueSearchFrom(s, i).value == s[j..j + 10];
      return;
    }
    assert DueSearchFrom(s, i) == DueSearchFrom(s, i + 1);
    DueSearchFromLeftmost(s, i + 1);
    if DueSearchFrom(s, i + 1).Some? {
      var a: nat, j: nat :| LeftmostDue(s, i + 1, a, j) && DueSearchFrom(s, i + 1).value == s[j..j + 10];
      NoDueMatchAt(s, i);
      forall a': nat, j': nat | i <= a' < a
        ensures !DueMatch(s, a', j')
      {
        if a' > i {
          assert i + 1 <= a' < a;
        }
      }
      assert LeftmostDue(s, i, a, j);
    }
  }

  /** `re.search(r"due.*?(\d{4}-\d{2}-\d{2})", s)`: the text of group 1. */
  function DueDateSearch(s: string): Option<string> {
    DueSearchFrom(s, 0)
  }

  /**
    The search finds the date of the leftmost "due" that a date follows on the
    same line, the first such date after it; the match is case-sensitive, so a
    text without a lower-case "due" never yields a date.
  */
  lemma DueDateSearchLeftmost(s: string)
    ensures DueDateSearch(s).Some? <==> exists a: nat, j: nat :: DueMatch(s, a, j)
    ensures DueDateSearch(s).Some? ==>
              exists a: nat, j: nat :: DueMatch(s, a, j) && DueDateSearch(s).value == s[j..j + 10]
                                     && (forall a': nat, j': nat :: a' < a ==> !DueMatch(s, a', j'))
                                     && (forall j': nat :: j' < j ==> !DueMatch(s, a, j'))
    ensures !Contains(s, "due") ==> DueDateSearch(s).None?
  {
    DueSearchFromFinds(s, 0);
    DueSearchFromLeftmost(s, 0);
  }
}
