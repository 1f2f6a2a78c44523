/**
  `PriorityInference.explain_priority` (`api/utils/constants.py`): the
  human-readable account of a decision, built line by line and joined with
  newlines.
*/
module PriorityExplanation {
  import opened Text
  import opened Calendar
  import opened PriorityInference


  /** `"\n".join(lines)`. */
  function Join(lines: seq<string>, sep: string): (text: string)
    ensures lines != [] ==> |text| >= |lines[0]| && text[..|lines[0]|] == lines[0]
  {
    if lines == [] then ""
    else if |lines| == 1 then lines[0]
    else lines[0] + sep + Join(lines[1..], sep)
  }

  /** `level.title()` for a board key: the enum value of the tier. */
  function TierTitle(t: Tier): (title: string)
    ensures title == PriorityValue(t)
    ensures LowerStr(title) == TierKey(t)
  {
    if t == High then "High" else if t == Medium then "Medium" else "Low"
  }

  /** `- <Level>: <score>` for one tier. */
  function ScoreLine(scores: PerTier<int>, t: Tier): string {
    "- " + TierTitle(t) + ": " + IntString(scores.Get(t))
  }

  /** The board's `i`-th key in insertion order: high, medium, low. */
  function BoardTier(i: nat): (t: Tier)
    requires i < 3
    ensures Rank(t) == i
  {
    if i == 0 then High else if i == 1 then Medium else Low
  }

  /** The score lines of the first `n` tiers of the board, in order. */
  function ScoreLines(scores: PerTier<int>, n: nat): (lines: seq<string>)
    requires n <= 3
    ensures |lines| == n
  {
    if n == 0 then [] else ScoreLines(scores, n - 1) + [ScoreLine(scores, BoardTier(n - 1))]
  }

  /** The lines of the explanation of a decision, before they are joined. */
  function ExplanationLines(priority: Priority, reasoning: Reasoning): seq<string> {
    ["Priority determined as " + PriorityValue(priority) + ":"]
    + (if reasoning.decisionFactors == [] then [] else ["\nKey factors:"] + Prefixed("- ", reasoning.decisionFactors))
    + ["\nScores:"]
    + ScoreLines(reasoning.scores, 3)
  }

  /** Lines 197-200: the "Key factors" heading and one line per factor, when there are any. */
  method AppendFactors(explanation0: seq<string>, factors: seq<string>) returns (explanation: seq<string>)
    ensures explanation == explanation0 + (if factors == [] then [] else ["\nKey factors:"] + Prefixed("- ", factors))
  {
    explanation := explanation0;
    if factors != [] {
      explanation := explanation + ["\nKey factors:"];
      ghost var header := explanation;
      for k := 0 to |factors|
        invariant explanation == header + Prefixed("- ", factors[..k])
      {
        PrefixedStep("- ", factors, k);
        explanation := explanation + ["- " + factors[k]];
      }
      assert factors[..|factors|] == factors;
    }
  }

  /** Lines 202-204: the "Scores" heading and one line per tier, in board order. */
  method AppendScores(explanation0: seq<string>, scores: PerTier<int>) returns (explanation: seq<string>)
    ensures explanation == explanation0 + ["\nScores:"] + ScoreLines(scores, 3)
  {
    explanation := explanation0 + ["\nScores:"];
    ghost var header := explanation;
    for i := 0 to 3
      invariant explanation == header + ScoreLines(scores, i)
    {
      explanation := explanation + [ScoreLine(scores, BoardTier(i))];
    }
  }

  /**
    `explain_priority` (lines 191-206): infers the priority with no current
    priority, then writes the header, the decision factors (only when there
    are any) and the three scores in board order, one line each.
  */
  method ExplainPriority(description: string, today: Date) returns (text: string)
    requires ValidDate(today)
    ensures text == Join(ExplanationLines(Infer(description, "Unknown", today).0, Infer(description, "Unknown", today).1), "\n")
  {
    var priority, reasoning := InferPriority(description, "Unknown", today);
    var explanation := ["Priority determined as " + PriorityValue(priority) + ":"];
    explanation := AppendFactors(explanation, reasoning.decisionFactors);
    explanation := AppendScores(explanation, reasoning.scores);
    text := Join(explanation, "\n");
  }

  /** A score line names the tier by its enum value and gives its score in decimal. */
  lemma ScoreLineReadsBack(scores: PerTier<int>, t: Tier)
    requires scores.Get(t) >= 0
    ensures var line := ScoreLine(scores, t);
            var prefix := "- " + PriorityValue(t) + ": ";
            |line| > |prefix| && line[..|prefix|] == prefix &&
            AllDigits(line[|prefix|..]) && DigitsValue(line[|prefix|..]) == scores.Get(t)
  {
    var prefix := "- " + PriorityValue(t) + ": ";
    var digits := NatString(scores.Get(t));
    assert ScoreLine(scores, t) == prefix + digits;
    assert (prefix + digits)[|prefix|..] == digits;
    NatStringValue(scores.Get(t));
  }

  /** The score section lists high, medium and low, in that order. */
  lemma BoardScoreLines(scores: PerTier<int>)
    ensures ScoreLines(scores, 3) == [ScoreLine(scores, High), ScoreLine(scores, Medium), ScoreLine(scores, Low)]
  {
    assert ScoreLines(scores, 1) == [ScoreLine(scores, High)];
    assert ScoreLines(scores, 2) == [ScoreLine(scores, High), ScoreLine(scores, Medium)];
  }

  /** The closing section: the "Scores" heading and one line each for high, medium and low. */
  function ScoreSection(scores: PerTier<int>): seq<string> {
    ["\nScores:", ScoreLine(scores, High), ScoreLine(scores, Medium), ScoreLine(scores, Low)]
  }

  /**
    The explanation's layout when nothing decided the priority (lines 195-204):
    the header naming the priority, then the score section, with no "Key
    factors" heading.
  */
  lemma ExplanationWithoutFactors(priority: Priority, reasoning: Reasoning)
    requires reasoning.decisionFactors == []
    ensures ExplanationLines(priority, reasoning)
         == ["Priority determined as " + PriorityValue(priority) + ":"] + ScoreSection(reasoning.scores)
  {
    BoardScoreLines(reasoning.scores);
  }

  /**
    The explanation's layout when decision factors exist (lines 195-204): the
    header, the "Key factors" heading, one dashed line per factor in order, and
    the score section.
  */
  lemma ExplanationWithFactors(priority: Priority, reasoning: Reasoning)
    requires reasoning.decisionFactors != []
    ensures var lines := ExplanationLines(priority, reasoning);
            var factors := reasoning.decisionFactors;
            |lines| == |factors| + 6 &&
            lines[0] == "Priority determined as " + PriorityValue(priority) + ":" &&
            lines[1] == "\nKey factors:" &&
            (forall k :: 0 <= k < |factors| ==> lines[2 + k] == "- " + factors[k]) &&
            lines[|factors| + 2..] == ScoreSection(reasoning.scores)
  {
    var header := "Priority determined as " + PriorityValue(priority) + ":";
    var keyed := ["\nKey factors:"] + Prefixed("- ", reasoning.decisionFactors);
    var scoreLines := ScoreLines(reasoning.scores, 3);
    BoardScoreLines(reasoning.scores);
    assert ["\nScores:"] + scoreLines == ScoreSection(reasoning.scores);
    assert [header] + keyed + ["\nScores:"] + scoreLines == [header] + keyed + (["\nScores:"] + scoreLines);
    LayoutWithFactors(header, reasoning.decisionFactors, ScoreSection(reasoning.scores));
  }

  /** Lines laid out as a header, the "Key factors" heading, the factor lines and a tail. */
  lemma LayoutWithFactors(header: string, factors: seq<string>, tail: seq<string>)
    ensures var lines := [header] + (["\nKey factors:"] + Prefixed("- ", factors)) + tail;
            |lines| == |factors| + 2 + |tail| &&
            lines[0] == header && lines[1] == "\nKey factors:" &&
            (forall k :: 0 <= k < |factors| ==> lines[2 + k] == "- " + factors[k]) &&
            lines[|factors| + 2..] == tail
  {
    var body := Prefixed("- ", factors);
    var lines := [header] + (["\nKey factors:"] + body) + tail;
    forall k | 0 <= k < |factors| ensures lines[2 + k] == "- " + factors[k] {
      PrefixedAt("- ", factors, k);
      assert lines[2 + k] == body[k];
    }
    assert lines[|factors| + 2..] == tail;
  }

  /** The joined text starts with the header line. */
  lemma ExplanationHeader(description: string, today: Date)
    requires ValidDate(today)
    ensures var (priority, reasoning) := Infer(description, "Unknown", today);
            var header := "Priority determined as " + PriorityValue(priority) + ":";
            var text := Join(ExplanationLines(priority, reasoning), "\n");
            |text| >= |header| && text[..|header|] == header
  {
  }
}
