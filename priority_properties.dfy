/**
  What `infer_priority` promises, proved about its functional specification
  `Infer` (which `PriorityInference.InferPriority` is proved to compute):
  scores are non-negative, bounded and at least as long as their match lists,
  every matching pattern counts, the due-date rule and the current-priority
  bonus act as documented, and the selection is a first-maximum argmax.
*/
module PriorityProperties {
  import opened Wrappers
  import opened Text
  import opened Calendar
  import opened Patterns
  import opened PriorityInference

  // ---- counting ----

  /** Each matching pattern of a group is worth the group's weight once. */
  lemma {:induction false} HitsScoreCounts(ps: seq<Pattern>, w: int, s: string)
    ensures HitsScore(ps, w, s) == w * |Hits(ps, s)|
  {
    if ps != [] {
      HitsScoreCounts(ps[..|ps| - 1], w, s);
      var n := |Hits(ps[..|ps| - 1], s)|;
      assert w * (n + 1) == w * n + w;
    }
  }

  /**
    A group scores between 0 and weight times its size, and (for a positive
    weight) at least one point per entry it adds to the match list.
  */
  lemma HitsBounds(ps: seq<Pattern>, w: int, s: string)
    requires w >= 1
    ensures 0 <= |Prefixed("Matched: ", Hits(ps, s))| <= HitsScore(ps, w, s) <= w * |ps|
  {
    HitsScoreCounts(ps, w, s);
    var n := |Hits(ps, s)|;
    assert n <= w * n <= w * |ps|;
  }

  /** An indicator list scores between 0 and its capacity, and at least one point per match-list entry. */
  lemma {:induction false} IndicatorsBounds(inds: seq<Indicator>, s: string)
    requires forall k :: 0 <= k < |inds| ==> inds[k].weight >= 1
    ensures 0 <= |IndicatorsTrace(inds, s)| <= IndicatorsScore(inds, s) <= Capacity(inds)
  {
    if inds != [] {
      var init, last := inds[..|inds| - 1], inds[|inds| - 1];
      IndicatorsBounds(init, s);
      HitsBounds(last.patterns, last.weight, s);
    }
  }

  /**
    The pattern table alone gives high at most 150 points, medium at most 54
    and low at most 15, never less than 0, and at least one point per entry
    it adds to the tier's match list.
  */
  lemma PatternScoreBounds(t: Tier, s: string)
    ensures 0 <= |PatternTrace(t, s)| <= PatternScore(t, s)
    ensures PatternScore(t, s) <= (if t == High then 150 else if t == Medium then 54 else 15)
  {
    TableShape();
    IndicatorsBounds(IndicatorsOf(t), s);
  }

  /**
    Every tier score is non-negative, bounded by the table, the date rule and
    the bonus, and at least the length of the tier's match list (lines 130-173).
  */
  lemma ScoreBounds(s: string, current: string, today: Date, t: Tier)
    requires ValidDate(today)
    ensures 0 <= |Matches(s, current, today).Get(t)| <= Scores(s, current, today).Get(t)
    ensures Scores(s, current, today).Get(t) <= (if t == High then 161 else if t == Medium then 62 else 18)
  {
    PatternScoreBounds(t, s);
    assert Scores(s, current, today).Get(t) == TierScore(t, s, current, today);
    assert Matches(s, current, today).Get(t) == TierMatches(t, s, current, today);
  }

  /** One group scores at least its weight for each of two distinct patterns that match. */
  lemma {:induction false} HitsScoreTwo(ps: seq<Pattern>, w: nat, s: string, i: nat, j: nat)
    requires i < j < |ps|
    requires Search(ps[i], s).Some? && Search(ps[j], s).Some?
    ensures HitsScore(ps, w, s) >= 2 * w
  {
    HitsScoreCounts(ps, w, s);
    HitsAtLeast(ps, s, i, j);
    var n := |Hits(ps, s)|;
    assert w * n >= w * 2;
  }

  /** Two distinct matching patterns leave two entries in `Hits`. */
  lemma {:induction false} HitsAtLeast(ps: seq<Pattern>, s: string, i: nat, j: nat)
    requires i < j < |ps|
    requires Search(ps[i], s).Some? && Search(ps[j], s).Some?
    ensures |Hits(ps, s)| >= 2
  {
    var init := ps[..|ps| - 1];
    if j < |ps| - 1 {
      assert init[i] == ps[i] && init[j] == ps[j];
      HitsAtLeast(init, s, i, j);
    } else {
      assert init[i] == ps[i];
      HitsAtLeastOne(init, s, i);
    }
  }

  /** One matching pattern leaves an entry in `Hits`. */
  lemma {:induction false} HitsAtLeastOne(ps: seq<Pattern>, s: string, i: nat)
    requires i < |ps|
    requires Search(ps[i], s).Some?
    ensures |Hits(ps, s)| >= 1
  {
    var init := ps[..|ps| - 1];
    if i < |ps| - 1 {
      assert init[i] == ps[i];
      HitsAtLeastOne(init, s, i);
    }
  }

  /** An indicator list scores at least what any one of its groups scores. */
  lemma {:induction false} IndicatorsScoreAtLeast(inds: seq<Indicator>, s: string, k: nat)
    requires k < |inds|
    ensures IndicatorsScore(inds, s) >= HitsScore(inds[k].patterns, inds[k].weight, s)
  {
    var init, last := inds[..|inds| - 1], inds[|inds| - 1];
    HitsScoreCounts(last.patterns, last.weight, s);
    if k < |inds| - 1 {
      assert init[k] == inds[k];
      IndicatorsScoreAtLeast(init, s, k);
    } else {
      IndicatorsNonNegative(init, s);
    }
  }

  /** An indicator list never scores below zero. */
  lemma {:induction false} IndicatorsNonNegative(inds: seq<Indicator>, s: string)
    ensures IndicatorsScore(inds, s) >= 0
  {
    if inds != [] {
      var init, last := inds[..|inds| - 1], inds[|inds| - 1];
      IndicatorsNonNegative(init, s);
      HitsScoreCounts(last.patterns, last.weight, s);
    }
  }

  /** The lower-cased text contains `lit` exactly when the literal pattern finds it. */
  lemma LiteralFound(lit: string, s: string)
    ensures Search(Lit(lit), s).Some? <==> Contains(LowerStr(s), lit)
  {
    SearchLiteral(lit, s);
    var low := LowerStr(s);
    LowerStrAt(s);
    forall p | 0 <= p <= |s| - |lit|
      ensures MatchesCI(s, p, lit) <==> OccursAt(low, p, lit)
    {
      LowerStrAt(s[p..p + |lit|]);
      assert LowerStr(s[p..p + |lit|]) == low[p..p + |lit|];
    }
    if Search(Lit(lit), s).Some? {
      var p :| 0 <= p <= |s| && MatchesCI(s, p, lit);
      assert OccursAt(low, p, lit);
    }
  }

  /**
    Patterns add up rather than stopping at the first hit (lines 159-168): a
    description containing both "urgent" and "asap", in any case, scores at
    least 20 for high.
  */
  lemma UrgentAsap(s: string, current: string, today: Date)
    requires ValidDate(today)
    requires Contains(LowerStr(s), "urgent") && Contains(LowerStr(s), "asap")
    ensures Scores(s, current, today).high >= 20
  {
    LiteralFound("urgent", s);
    LiteralFound("asap", s);
    var urgency := HighIndicators[0];
    assert urgency.patterns[0] == Lit("urgent") && urgency.patterns[1] == Lit("asap");
    HitsScoreTwo(urgency.patterns, urgency.weight, s, 0, 1);
    IndicatorsScoreAtLeast(HighIndicators, s, 0);
    assert Scores(s, current, today).high == TierScore(High, s, current, today);
  }

  // ---- the due-date rule ----

  /**
    The rule is case-sensitive (line 143): a description without a lower-case
    "due" gets nothing from it, whatever dates it holds.
  */
  lemma NoDueNoDateRule(s: string, today: Date, t: Tier)
    requires ValidDate(today)
    requires !Contains(s, "due")
    ensures DateRule(s, today).None?
    ensures DateScore(t, s, today) == 0 && DateTrace(t, s, today) == []
  {
    DueDateSearchLeftmost(s);
  }

  /**
    Lines 143-156 on a date the rule finds in canonical form: a due date on or
    before tomorrow (past dates included) credits high, one from two to seven
    days ahead credits medium, anything later credits nothing.
  */
  lemma DateRuleByDistance(s: string, today: Date, due: Date)
    requires ValidDate(today) && ValidDate(due)
    requires DueDateSearch(s) == Some(Format(due))
    ensures DayNumber(due) <= DayNumber(today) + 1 <==> DateRule(s, today) == Some(High)
    ensures DayNumber(today) + 1 < DayNumber(due) <= DayNumber(today) + 7 <==> DateRule(s, today) == Some(Medium)
    ensures DayNumber(today) + 7 < DayNumber(due) <==> DateRule(s, today).None?
  {
    ParseFormat(due);
  }

  /** A task due tomorrow is high priority material: the rule adds 8 points to high. */
  lemma DueTomorrow(s: string, today: Date)
    requires ValidDate(today) && ValidDate(NextDay(today))
    requires DueDateSearch(s) == Some(Format(NextDay(today)))
    ensures DateScore(High, s, today) == 8 && DateTrace(High, s, today) == ["Due within 24 hours"]
    ensures DateScore(Medium, s, today) == 0 && DateTrace(Medium, s, today) == []
  {
    NextDayNumber(today);
    DateRuleByDistance(s, today, NextDay(today));
  }

  /** A date that does not parse (say "2023-02-30") is ignored (lines 155-156). */
  lemma UnparseableDueIgnored(s: string, today: Date, text: string)
    requires ValidDate(today)
    requires DueDateSearch(s) == Some(text) && ParseIso(text).None?
    ensures forall t: Tier :: DateScore(t, s, today) == 0 && DateTrace(t, s, today) == []
  {
  }

  // ---- the current priority ----

  /** "Unknown", the default current priority, is not a board key in any case. */
  lemma UnknownIsNoTier()
    ensures CurrentTier("Unknown").None?
  {
    assert LowerStr("Unknown") == "unknown";
  }

  /** The boards are read tier by tier. */
  lemma BoardsByTier(s: string, current: string, today: Date, t: Tier)
    requires ValidDate(today)
    ensures Scores(s, current, today).Get(t) == TierScore(t, s, current, today)
    ensures Matches(s, current, today).Get(t) == TierMatches(t, s, current, today)
  {
  }

  /** Tier by tier, the current priority adds exactly `Bonus` to the score. */
  lemma TierBonusScore(s: string, current: string, today: Date, t: Tier)
    requires ValidDate(today)
    ensures Scores(s, current, today).Get(t) == Scores(s, "Unknown", today).Get(t) + Bonus(t, current)
  {
    UnknownIsNoTier();
    BoardsByTier(s, current, today, t);
    BoardsByTier(s, "Unknown", today, t);
  }

  /** Tier by tier, the current priority appends exactly `BonusTrace` to the match list. */
  lemma TierBonusTrace(s: string, current: string, today: Date, t: Tier)
    requires ValidDate(today)
    ensures Matches(s, current, today).Get(t) == Matches(s, "Unknown", today).Get(t) + BonusTrace(t, current)
  {
    UnknownIsNoTier();
    BoardsByTier(s, current, today, t);
    BoardsByTier(s, "Unknown", today, t);
    var date, patterns := DateTrace(t, s, today), PatternTrace(t, s);
    assert TierMatches(t, s, "Unknown", today) == date + patterns + [];
    assert date + patterns + [] == date + patterns;
  }

  /** Tier by tier, the current priority contributes exactly `Bonus` and `BonusTrace`. */
  lemma TierBonus(s: string, current: string, today: Date, t: Tier)
    requires ValidDate(today)
    ensures Scores(s, current, today).Get(t) == Scores(s, "Unknown", today).Get(t) + Bonus(t, current)
    ensures Matches(s, current, today).Get(t) == Matches(s, "Unknown", today).Get(t) + BonusTrace(t, current)
  {
    TierBonusScore(s, current, today, t);
    TierBonusTrace(s, current, today, t);
  }

  /**
    Lines 170-173: a current priority that is not "high", "medium" or "low" in
    any case ("Unknown" among them) leaves the result exactly as if none were
    given.
  */
  lemma UnrecognisedCurrentIgnored(s: string, current: string, today: Date)
    requires ValidDate(today)
    requires CurrentTier(current).None?
    ensures Infer(s, current, today) == Infer(s, "Unknown", today)
  {
    forall t: Tier
      ensures Scores(s, current, today).Get(t) == Scores(s, "Unknown", today).Get(t)
      ensures Matches(s, current, today).Get(t) == Matches(s, "Unknown", today).Get(t)
    {
      TierBonus(s, current, today, t);
    }
    PerTierExt(Scores(s, current, today), Scores(s, "Unknown", today));
    PerTierExt(Matches(s, current, today), Matches(s, "Unknown", today));
  }

  /** A board whose tiers each differ from `base` by `Bonus` is `base` with 3 added to the named tier. */
  lemma RaisedBoard(current: string, p: Tier, base: PerTier<int>, scores: PerTier<int>)
    requires CurrentTier(current) == Some(p)
    requires scores.Get(High) == base.Get(High) + Bonus(High, current)
    requires scores.Get(Medium) == base.Get(Medium) + Bonus(Medium, current)
    requires scores.Get(Low) == base.Get(Low) + Bonus(Low, current)
    ensures scores == base.Set(p, base.Get(p) + 3)
  {
    var bumped := base.Set(p, base.Get(p) + 3);
    assert scores.Get(High) == bumped.Get(High) && scores.Get(Medium) == bumped.Get(Medium) && scores.Get(Low) == bumped.Get(Low);
    PerTierExt(scores, bumped);
  }

  /** A match board whose tiers each extend `base` by `BonusTrace` is `base` with the entry appended to the named tier. */
  lemma NotedBoard(current: string, p: Tier, base: PerTier<seq<string>>, matches: PerTier<seq<string>>)
    requires CurrentTier(current) == Some(p)
    requires matches.Get(High) == base.Get(High) + BonusTrace(High, current)
    requires matches.Get(Medium) == base.Get(Medium) + BonusTrace(Medium, current)
    requires matches.Get(Low) == base.Get(Low) + BonusTrace(Low, current)
    ensures matches == base.Set(p, base.Get(p) + ["Considering existing priority"])
  {
    var noted := base.Set(p, base.Get(p) + ["Considering existing priority"]);
    assert base.Get(High) + [] == base.Get(High);
    assert base.Get(Medium) + [] == base.Get(Medium);
    assert base.Get(Low) + [] == base.Get(Low);
    assert matches.Get(High) == noted.Get(High) && matches.Get(Medium) == noted.Get(Medium) && matches.Get(Low) == noted.Get(Low);
    PerTierExt(matches, noted);
  }

  /** A recognised current priority raises its own tier's score by 3 and no other. */
  lemma BonusScores(s: string, current: string, today: Date, p: Tier)
    requires ValidDate(today)
    requires CurrentTier(current) == Some(p)
    ensures Scores(s, current, today) == Scores(s, "Unknown", today).Set(p, Scores(s, "Unknown", today).Get(p) + 3)
  {
    TierBonusScore(s, current, today, High);
    TierBonusScore(s, current, today, Medium);
    TierBonusScore(s, current, today, Low);
    RaisedBoard(current, p, Scores(s, "Unknown", today), Scores(s, current, today));
  }

  /** A recognised current priority adds its entry to its own tier's match list and to no other. */
  lemma BonusMatches(s: string, current: string, today: Date, p: Tier)
    requires ValidDate(today)
    requires CurrentTier(current) == Some(p)
    ensures Matches(s, current, today)
         == Matches(s, "Unknown", today).Set(p, Matches(s, "Unknown", today).Get(p) + ["Considering existing priority"])
  {
    TierBonusTrace(s, current, today, High);
    TierBonusTrace(s, current, today, Medium);
    TierBonusTrace(s, current, today, Low);
    NotedBoard(current, p, Matches(s, "Unknown", today), Matches(s, current, today));
  }

  /**
    Lines 170-173: a recognised current priority adds 3 points and the entry
    "Considering existing priority" to its own tier and changes nothing else.
  */
  lemma RecognisedCurrentBonus(s: string, current: string, today: Date, p: Tier)
    requires ValidDate(today)
    requires CurrentTier(current) == Some(p)
    ensures Scores(s, current, today) == Scores(s, "Unknown", today).Set(p, Scores(s, "Unknown", today).Get(p) + 3)
    ensures Matches(s, current, today)
         == Matches(s, "Unknown", today).Set(p, Matches(s, "Unknown", today).Get(p) + ["Considering existing priority"])
  {
    BonusScores(s, current, today, p);
    BonusMatches(s, current, today, p);
  }

  /**
    Adding 3 points to one tier of a non-negative board either leaves the
    winner unchanged or makes that tier the winner.
  */
  lemma BonusWinner(scores: PerTier<int>, p: Tier)
    requires forall t: Tier :: scores.Get(t) >= 0
    ensures Select(scores.Set(p, scores.Get(p) + 3)) in {Select(scores), p}
  {
    assert scores.Get(High) >= 0 && scores.Get(Medium) >= 0 && scores.Get(Low) >= 0;
  }

  /**
    Supplying a recognised current priority p makes the winner either the
    winner without it or p itself (lines 171-180).
  */
  lemma CurrentPriorityWinner(s: string, current: string, today: Date)
    requires ValidDate(today)
    requires CurrentTier(current).Some?
    ensures Infer(s, current, today).0 in {Infer(s, "Unknown", today).0, CurrentTier(current).value}
  {
    RecognisedCurrentBonus(s, current, today, CurrentTier(current).value);
    var base := Scores(s, "Unknown", today);
    forall t: Tier ensures base.Get(t) >= 0 {
      ScoreBounds(s, "Unknown", today, t);
    }
    BonusWinner(base, CurrentTier(current).value);
  }

  // ---- the selection ----

  /**
    Lines 175-187: the result is a tier (never Unknown); `final_score` is the
    largest score and the winner's; `decision_factors` is the winner's match
    list; when something scored, the winner outscores every tier before it in
    the order high, medium, low; when nothing scored the result is Low with no
    decision factors.
  */
  lemma InferOutcome(s: string, current: string, today: Date)
    requires ValidDate(today)
    ensures Infer(s, current, today).0 != Unknown
    ensures var (w, r) := Infer(s, current, today);
            r.scores == Scores(s, current, today) && r.matches == Matches(s, current, today) &&
            r.finalScore >= 0 &&
            (forall t: Tier :: r.scores.Get(t) <= r.finalScore) &&
            r.finalScore == r.scores.Get(w) &&
            r.decisionFactors == r.matches.Get(w) &&
            (r.finalScore != 0 ==> forall t: Tier :: Rank(t) < Rank(w) ==> r.scores.Get(t) < r.finalScore) &&
            (r.finalScore == 0 ==> w == Low && r.decisionFactors == [])
  {
    var scores, matches := Scores(s, current, today), Matches(s, current, today);
    ScoreBounds(s, current, today, High);
    ScoreBounds(s, current, today, Medium);
    ScoreBounds(s, current, today, Low);
    var w := Select(scores);
    assert Infer(s, current, today) == (w, Reasoning(scores, matches, MaxScore(scores), matches.Get(w)));
    if MaxScore(scores) == 0 {
      assert scores.Get(Low) == 0;
      assert |matches.Get(Low)| == 0;
    }
  }
}
