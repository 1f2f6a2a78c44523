/**
  Rule-based priority inference (`api/utils/constants.py`): the `Priority`
  enum, the weighted pattern table that `PriorityInference.__init__` builds,
  `infer_priority`, which scores a task description tier by tier and picks the
  winning tier, and `explain_priority`, which renders that decision as text.
  The current date, which the source reads from the clock, is a parameter.
*/
module PriorityInference {
  import opened Wrappers
  import opened Text
  import opened Calendar
  import opened Patterns

  datatype Priority = High | Medium | Low | Unknown

  /** The enum's string value. */
  function PriorityValue(p: Priority): string {
    match p
    case High => "High"
    case Medium => "Medium"
    case Low => "Low"
    case Unknown => "Unknown"
  }

  /** A key of the score board: the priorities other than Unknown. */
  type Tier = p: Priority | p != Unknown witness High

  /** Position of a tier in the board's insertion order (high, medium, low). */
  function Rank(t: Tier): nat {
    if t == High then 0 else if t == Medium then 1 else 2
  }

  /** The board key of a tier, as written in the source (`"high"`, ...). */
  function TierKey(t: Tier): (k: string)
    ensures k == LowerStr(PriorityValue(t))
  {
    LowerStrAt(PriorityValue(t));
    if t == High then "high" else if t == Medium then "medium" else "low"
  }

  /** A dictionary whose keys are exactly "high", "medium" and "low", in that order. */
  datatype PerTier<T> = PerTier(high: T, medium: T, low: T) {
    function Get(t: Tier): T {
      if t == High then high else if t == Medium then medium else low
    }

    function Set(t: Tier, v: T): (r: PerTier<T>)
      ensures r.Get(t) == v
      ensures t != High ==> r.high == high
      ensures t != Medium ==> r.medium == medium
      ensures t != Low ==> r.low == low
    {
      if t == High then PerTier(v, medium, low)
      else if t == Medium then PerTier(high, v, low)
      else PerTier(high, medium, v)
    }
  }

  lemma PerTierExt<T>(a: PerTier<T>, b: PerTier<T>)
    requires forall t: Tier :: a.Get(t) == b.Get(t)
    ensures a == b
  {
    assert a.Get(High) == b.Get(High) && a.Get(Medium) == b.Get(Medium) && a.Get(Low) == b.Get(Low);
  }

  /** `PriorityIndicator`: a group of patterns that share one weight. */
  datatype Indicator = Indicator(patterns: seq<Pattern>, weight: nat)

  function Lit(text: string): Pattern {
    Literals([text])
  }

  const HighIndicators: seq<Indicator> := [
    // explicit urgency
    Indicator([Lit("urgent"), Lit("asap"), Lit("emergency"), Lit("critical"),
               Literals(["immediately", "immediate"]), Lit("right away")], 10),
    // deadline indicators
    Indicator([Literals(["by today", "by tomorrow", "by tonight"]),
               Literals(["due today", "due tomorrow", "due tonight"]),
               WithinHours,
               Literals(["end of the day", "end of day"])], 8),
    // important stakeholders
    Indicator([Literals(["boss needs", "boss wants", "boss requested",
                         "client needs", "client wants", "client requested",
                         "customer needs", "customer wants", "customer requested"]),
               Lit("executive"), Lit("ceo"), Lit("board meeting")], 7),
    // financial and legal implications
    Indicator([Lit("deadline"), Lit("tax"), Lit("legal"), Lit("compliance"), Lit("regulatory")], 6)
  ]

  const MediumIndicators: seq<Indicator> := [
    // time-bound but not urgent
    Indicator([Lit("this week"), Lit("next week"), Lit("upcoming"), Lit("soon"),
               Literals(["scheduled", "schedule"])], 5),
    // project-related
    Indicator([Lit("project"), Lit("meeting"), Lit("presentation"), Lit("report"), Lit("review")], 4),
    // follow-up activities
    Indicator([Literals(["follow-up", "follow up", "followup"]),
               Literals(["check-in", "check in", "checkin"]),
               Lit("update")], 3)
  ]

  const LowIndicators: seq<Indicator> := [
    // optional or flexible tasks
    Indicator([Lit("when possible"), Lit("if you can"), Lit("would be nice"), Lit("maybe"), Lit("consider")], 2),
    // maintenance and routine
    Indicator([Lit("routine"), Lit("regular"), Lit("maintenance"), Lit("organize"), Lit("clean")], 1)
  ]

  function IndicatorsOf(t: Tier): seq<Indicator> {
    if t == High then HighIndicators else if t == Medium then MediumIndicators else LowIndicators
  }

  /** Sum of weight times pattern count: the most a group of indicators can score. */
  function Capacity(inds: seq<Indicator>): nat {
    if inds == [] then 0 else Capacity(inds[..|inds| - 1]) + inds[|inds| - 1].weight * |inds[|inds| - 1].patterns|
  }

  /** The table: weights 10/8/7/6 for high, 5/4/3 for medium, 2/1 for low. */
  lemma TableShape()
    ensures |HighIndicators| == 4 && |MediumIndicators| == 3 && |LowIndicators| == 2
    ensures HighIndicators[0].weight == 10 && HighIndicators[1].weight == 8
    ensures HighIndicators[2].weight == 7 && HighIndicators[3].weight == 6
    ensures MediumIndicators[0].weight == 5 && MediumIndicators[1].weight == 4 && MediumIndicators[2].weight == 3
    ensures LowIndicators[0].weight == 2 && LowIndicators[1].weight == 1
    ensures forall t: Tier, k :: 0 <= k < |IndicatorsOf(t)| ==> IndicatorsOf(t)[k].weight >= 1
    ensures Capacity(HighIndicators) == 150 && Capacity(MediumIndicators) == 54 && Capacity(LowIndicators) == 15
  {
    assert HighIndicators[..3][..2][..1] == [HighIndicators[0]];
    assert HighIndicators[..3][..2] == HighIndicators[..2];
    assert MediumIndicators[..2][..1] == [MediumIndicators[0]];
    assert LowIndicators[..1] == [LowIndicators[0]];
    assert Capacity(HighIndicators[..1]) == 60;
    assert Capacity(HighIndicators[..2]) == 92;
    assert Capacity(HighIndicators[..3]) == 120;
    assert Capacity(MediumIndicators[..1]) == 25;
    assert Capacity(MediumIndicators[..2]) == 45;
    assert Capacity(LowIndicators[..1]) == 10;
  }

  // ---- the functional specification of `infer_priority` ----

  /** Texts that the patterns of `ps` find in `s`, in table order, one per matching pattern. */
  function Hits(ps: seq<Pattern>, s: string): (h: seq<string>)
    ensures |h| <= |ps|
  {
    if ps == [] then []
    else
      var h := Hits(ps[..|ps| - 1], s);
      match Search(ps[|ps| - 1], s)
      case Some(text) => h + [text]
      case None => h
  }

  /** Points the patterns of `ps`, each worth `weight`, give `s`. */
  function HitsScore(ps: seq<Pattern>, weight: int, s: string): int {
    if ps == [] then 0
    else HitsScore(ps[..|ps| - 1], weight, s) + (if Search(ps[|ps| - 1], s).Some? then weight else 0)
  }

  /** Points a list of indicators gives `s`: each matching pattern adds its group's weight. */
  function IndicatorsScore(inds: seq<Indicator>, s: string): int {
    if inds == [] then 0
    else
      var last := inds[|inds| - 1];
      IndicatorsScore(inds[..|inds| - 1], s) + HitsScore(last.patterns, last.weight, s)
  }

  /** Match-list entries a list of indicators gives `s`, in table order. */
  function IndicatorsTrace(inds: seq<Indicator>, s: string): seq<string> {
    if inds == [] then []
    else
      var last := inds[|inds| - 1];
      IndicatorsTrace(inds[..|inds| - 1], s) + Prefixed("Matched: ", Hits(last.patterns, s))
  }

  /** `days_until_due` when the due-date rule finds a date that parses. */
  function DaysUntilDue(s: string, today: Date): Option<int>
    requires ValidDate(today)
  {
    match DueDateSearch(s)
    case None => None
    case Some(text) =>
      match ParseIso(text)
      case None => None
      case Some(due) => Some(DayNumber(due) - DayNumber(today))
  }

  /** The tier the due-date rule credits, if any. */
  function DateRule(s: string, today: Date): Option<Tier>
    requires ValidDate(today)
  {
    match DaysUntilDue(s, today)
    case None => None
    case Some(days) => if days <= 1 then Some(High) else if days <= 7 then Some(Medium) else None
  }

  function DateScore(t: Tier, s: string, today: Date): int
    requires ValidDate(today)
  {
    if DateRule(s, today) == Some(t) then (if t == High then 8 else 5) else 0
  }

  function DateTrace(t: Tier, s: string, today: Date): seq<string>
    requires ValidDate(today)
  {
    if DateRule(s, today) == Some(t) then [if t == High then "Due within 24 hours" else "Due within week"] else []
  }

  /** `current_priority.lower() in scores`: the tier a current priority names, if any. */
  function CurrentTier(current: string): (r: Option<Tier>)
    ensures r.Some? <==> LowerStr(current) in {"high", "medium", "low"}
    ensures r.Some? ==> LowerStr(current) == TierKey(r.value)
  {
    var key := LowerStr(current);
    if key == "high" then Some(High)
    else if key == "medium" then Some(Medium)
    else if key == "low" then Some(Low)
    else None
  }

  function Bonus(t: Tier, current: string): int {
    if CurrentTier(current) == Some(t) then 3 else 0
  }

  function BonusTrace(t: Tier, current: string): seq<string> {
    if CurrentTier(current) == Some(t) then ["Considering existing priority"] else []
  }

  /** Points the tier's own pattern table gives `s`. */
  function PatternScore(t: Tier, s: string): int {
    IndicatorsScore(IndicatorsOf(t), s)
  }

  function PatternTrace(t: Tier, s: string): seq<string> {
    IndicatorsTrace(IndicatorsOf(t), s)
  }

  function TierScore(t: Tier, s: string, current: string, today: Date): int
    requires ValidDate(today)
  {
    DateScore(t, s, today) + PatternScore(t, s) + Bonus(t, current)
  }

  function TierMatches(t: Tier, s: string, current: string, today: Date): seq<string>
    requires ValidDate(today)
  {
    DateTrace(t, s, today) + PatternTrace(t, s) + BonusTrace(t, current)
  }

  function Scores(s: string, current: string, today: Date): PerTier<int>
    requires ValidDate(today)
  {
    PerTier(TierScore(High, s, current, today), TierScore(Medium, s, current, today), TierScore(Low, s, current, today))
  }

  function Matches(s: string, current: string, today: Date): PerTier<seq<string>>
    requires ValidDate(today)
  {
    PerTier(TierMatches(High, s, current, today), TierMatches(Medium, s, current, today), TierMatches(Low, s, current, today))
  }

  /** `max(scores.values())`. */
  function MaxScore(scores: PerTier<int>): (m: int)
    ensures forall t: Tier :: scores.Get(t) <= m
    ensures exists t: Tier :: scores.Get(t) == m
  {
    var hm := if scores.high >= scores.medium then scores.high else scores.medium;
    var m := if hm >= scores.low then hm else scores.low;
    assert scores.Get(High) == m || scores.Get(Medium) == m || scores.Get(Low) == m;
    m
  }

  /**
    `max(scores.items(), key=...)`: Python's `max` keeps the first maximal item,
    so the winner outscores every tier before it and equals or outscores every
    tier after it.
  */
  function ArgMax(scores: PerTier<int>): (w: Tier)
    ensures scores.Get(w) == MaxScore(scores)
    ensures forall t: Tier :: Rank(t) < Rank(w) ==> scores.Get(t) < scores.Get(w)
  {
    if scores.high >= scores.medium && scores.high >= scores.low then High
    else if scores.medium >= scores.low then Medium
    else Low
  }

  /** Lines 176-180: Low when every score is 0, otherwise the first maximal tier. */
  function Select(scores: PerTier<int>): (w: Tier)
    ensures MaxScore(scores) == 0 ==> w == Low
    ensures MaxScore(scores) != 0 ==> scores.Get(w) == MaxScore(scores)
    ensures MaxScore(scores) != 0 ==> forall t: Tier :: Rank(t) < Rank(w) ==> scores.Get(t) < scores.Get(w)
  {
    if MaxScore(scores) == 0 then Low else ArgMax(scores)
  }

  /** The reasoning dictionary `infer_priority` returns. */
  datatype Reasoning = Reasoning(
    scores: PerTier<int>,
    matches: PerTier<seq<string>>,
    finalScore: int,
    decisionFactors: seq<string>)

  /** What `infer_priority` returns, as a function of its inputs and today's date. */
  function Infer(s: string, current: string, today: Date): (Priority, Reasoning)
    requires ValidDate(today)
  {
    var scores := Scores(s, current, today);
    var matches := Matches(s, current, today);
    var w := Select(scores);
    (w, Reasoning(scores, matches, MaxScore(scores), matches.Get(w)))
  }

  /** One more pattern adds its hit, if any, to the texts, the points and the match-list entries. */
  lemma HitsStep(ps: seq<Pattern>, j: nat, weight: int, s: string)
    requires j < |ps|
    ensures Search(ps[j], s).Some? ==>
              Hits(ps[..j + 1], s) == Hits(ps[..j], s) + [Search(ps[j], s).value] &&
              HitsScore(ps[..j + 1], weight, s) == HitsScore(ps[..j], weight, s) + weight &&
              Prefixed("Matched: ", Hits(ps[..j + 1], s)) == Prefixed("Matched: ", Hits(ps[..j], s)) + ["Matched: " + Search(ps[j], s).value]
    ensures Search(ps[j], s).None? ==>
              Hits(ps[..j + 1], s) == Hits(ps[..j], s) &&
              HitsScore(ps[..j + 1], weight, s) == HitsScore(ps[..j], weight, s)
  {
    assert ps[..j + 1][..j] == ps[..j];
    if Search(ps[j], s).Some? {
      var h := Hits(ps[..j], s) + [Search(ps[j], s).value];
      assert h[..|h| - 1] == Hits(ps[..j], s);
    }
  }

  // ---- the imperative procedure ----

  /**
    The innermost loop (lines 165-168) on the board entries of the indicator's
    tier: every pattern of `indicator` that `description` matches adds the
    indicator's weight to the score and the entry `"Matched: <text>"` to the
    match list.
  */
  method ScoreIndicator(description: string, indicator: Indicator, score0: int, trace0: seq<string>)
    returns (score: int, trace: seq<string>)
    ensures score == score0 + HitsScore(indicator.patterns, indicator.weight, description)
    ensures trace == trace0 + Prefixed("Matched: ", Hits(indicator.patterns, description))
  {
    score, trace := score0, trace0;
    var patterns := indicator.patterns;
    assert trace0 + [] == trace0;
    for j := 0 to |patterns|
      invariant score == score0 + HitsScore(patterns[..j], indicator.weight, description)
      invariant trace == trace0 + Prefixed("Matched: ", Hits(patterns[..j], description))
    {
      HitsStep(patterns, j, indicator.weight, description);
      var found := Search(patterns[j], description);
      if found.Some? {
        score := score + indicator.weight;
        trace := trace + ["Matched: " + found.value];
      }
    }
    assert patterns[..|patterns|] == patterns;
  }

  /** The loop over one tier's indicators (lines 164-168), on that tier's board entries. */
  method ScoreIndicators(description: string, indicators: seq<Indicator>, score0: int, trace0: seq<string>)
    returns (score: int, trace: seq<string>)
    ensures score == score0 + IndicatorsScore(indicators, description)
    ensures trace == trace0 + IndicatorsTrace(indicators, description)
  {
    score, trace := score0, trace0;
    assert trace0 + [] == trace0;
    for k := 0 to |indicators|
      invariant score == score0 + IndicatorsScore(indicators[..k], description)
      invariant trace == trace0 + IndicatorsTrace(indicators[..k], description)
    {
      assert indicators[..k + 1][..k] == indicators[..k];
      score, trace := ScoreIndicator(description, indicators[k], score, trace);
    }
    assert indicators[..|indicators|] == indicators;
  }

  /**
    Lines 130-156: fresh score and match boards, then the due-date rule. A
    "due ... YYYY-MM-DD" whose date is at most one day away (or past) gives
    high 8 points, one at most seven days away gives medium 5; a date that
    does not parse is ignored.
  */
  method ApplyDueDateRule(description: string, today: Date)
    returns (scores: PerTier<int>, matches: PerTier<seq<string>>)
    requires ValidDate(today)
    ensures forall t: Tier :: scores.Get(t) == DateScore(t, description, today)
    ensures forall t: Tier :: matches.Get(t) == DateTrace(t, description, today)
  {
    scores := PerTier(0, 0, 0);
    matches := PerTier([], [], []);
    var dueText := DueDateSearch(description);
    if dueText.Some? {
      var due := ParseIso(dueText.value);
      if due.Some? {
        var daysUntilDue := DayNumber(due.value) - DayNumber(today);
        if daysUntilDue <= 1 {
          scores := scores.Set(High, scores.Get(High) + 8);
          matches := matches.Set(High, matches.Get(High) + ["Due within 24 hours"]);
        } else if daysUntilDue <= 7 {
          scores := scores.Set(Medium, scores.Get(Medium) + 5);
          matches := matches.Set(Medium, matches.Get(Medium) + ["Due within week"]);
        }
      }
    }
  }

  /**
    Lines 170-173: a current priority whose lower-case form is a board key
    adds 3 points and the entry "Considering existing priority" to that tier;
    any other string ("Unknown" included) changes nothing.
  */
  method ApplyCurrentPriority(currentPriority: string, scores0: PerTier<int>, matches0: PerTier<seq<string>>)
    returns (scores: PerTier<int>, matches: PerTier<seq<string>>)
    ensures forall t: Tier :: scores.Get(t) == scores0.Get(t) + Bonus(t, currentPriority)
    ensures forall t: Tier :: matches.Get(t) == matches0.Get(t) + BonusTrace(t, currentPriority)
  {
    scores, matches := scores0, matches0;
    var key := CurrentTier(currentPriority);
    if key.Some? {
      scores := scores.Set(key.value, scores.Get(key.value) + 3);
      matches := matches.Set(key.value, matches.Get(key.value) + ["Considering existing priority"]);
    }
  }

  /**
    Lines 160-168: the pattern table is applied tier by tier, in the order
    high, medium, low, each tier adding its `PatternScore` and `PatternTrace`.
  */
  method ApplyPatterns(description: string, scores0: PerTier<int>, matches0: PerTier<seq<string>>)
    returns (scores: PerTier<int>, matches: PerTier<seq<string>>)
    ensures forall t: Tier :: scores.Get(t) == scores0.Get(t) + PatternScore(t, description)
    ensures forall t: Tier :: matches.Get(t) == matches0.Get(t) + PatternTrace(t, description)
  {
    scores, matches := scores0, matches0;
    var tiers: seq<Tier> := [High, Medium, Low];
    for i := 0 to 3
      invariant scores.high == scores0.high + (if 0 < i then PatternScore(High, description) else 0)
      invariant scores.medium == scores0.medium + (if 1 < i then PatternScore(Medium, description) else 0)
      invariant scores.low == scores0.low + (if 2 < i then PatternScore(Low, description) else 0)
      invariant matches.high == matches0.high + (if 0 < i then PatternTrace(High, description) else [])
      invariant matches.medium == matches0.medium + (if 1 < i then PatternTrace(Medium, description) else [])
      invariant matches.low == matches0.low + (if 2 < i then PatternTrace(Low, description) else [])
    {
      var tier := tiers[i];
      var score, trace := ScoreIndicators(description, IndicatorsOf(tier), scores.Get(tier), matches.Get(tier));
      scores := scores.Set(tier, score);
      matches := matches.Set(tier, trace);
      assert scores.Get(High) == scores.high && scores.Get(Medium) == scores.medium && scores.Get(Low) == scores.low;
      assert matches.Get(High) == matches.high && matches.Get(Medium) == matches.medium && matches.Get(Low) == matches.low;
    }
    assert scores.Get(High) == scores.high && scores.Get(Medium) == scores.medium && scores.Get(Low) == scores.low;
    assert matches.Get(High) == matches.high && matches.Get(Medium) == matches.medium && matches.Get(Low) == matches.low;
  }

  /** Tier-wise agreement with `TierScore` and `TierMatches` is agreement with `Scores` and `Matches`. */
  lemma BoardsAgree(s: string, current: string, today: Date, scores: PerTier<int>, matches: PerTier<seq<string>>)
    requires ValidDate(today)
    requires forall t: Tier :: scores.Get(t) == TierScore(t, s, current, today)
    requires forall t: Tier :: matches.Get(t) == TierMatches(t, s, current, today)
    ensures scores == Scores(s, current, today)
    ensures matches == Matches(s, current, today)
  {
    assert scores.Get(High) == TierScore(High, s, current, today);
    assert scores.Get(Medium) == TierScore(Medium, s, current, today);
    assert scores.Get(Low) == TierScore(Low, s, current, today);
    assert matches.Get(High) == TierMatches(High, s, current, today);
    assert matches.Get(Medium) == TierMatches(Medium, s, current, today);
    assert matches.Get(Low) == TierMatches(Low, s, current, today);
  }

  /**
    `infer_priority` (lines 123-189): the date rule, the pattern table and the
    current priority feed the three-tier board, whose first maximal tier wins
    (Low when nothing scored). The result is exactly `Infer`.
  */
  method InferPriority(description: string, currentPriority: string, today: Date)
    returns (priority: Priority, reasoning: Reasoning)
    requires ValidDate(today)
    ensures (priority, reasoning) == Infer(description, currentPriority, today)
  {
    var scores, matches := ApplyDueDateRule(description, today);
    scores, matches := ApplyPatterns(description, scores, matches);
    scores, matches := ApplyCurrentPriority(currentPriority, scores, matches);
    BoardsAgree(description, currentPriority, today, scores, matches);

    var maxScore := MaxScore(scores);
    var winner: Tier;
    if maxScore == 0 {
      winner := Low;
    } else {
      winner := ArgMax(scores);
    }
    priority := winner;
    reasoning := Reasoning(scores, matches, maxScore, matches.Get(winner));
  }
}
