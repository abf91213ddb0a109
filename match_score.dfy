/**
 * The match score of src/components/MatchScore.jsx: a score computed from
 * keywords of the model's reasoning, the band it falls in, and the one
 * insight shown for it.
 */
module MatchScore {
  import opened JsText

  /** The substring tests on the lower-cased reasoning, in the order they are made. */
  datatype Indicators = Indicators(
    perfectOrIdeal: bool, strongOrExcellent: bool, align: bool, matches: bool, experience: bool,
    limitedOrSome: bool, partial: bool)

  function IndicatorsOf(reasoning: string): Indicators {
    var r := Lower(reasoning);
    Indicators(Contains(r, "perfect") || Contains(r, "ideal"), Contains(r, "strong") || Contains(r, "excellent"),
               Contains(r, "align"), Contains(r, "match"), Contains(r, "experience"),
               Contains(r, "limited") || Contains(r, "some"), Contains(r, "partial"))
  }

  /** The score before clamping: 50 and each indicator's weight, counted once. */
  function RawScore(f: Indicators): int {
    50 + (if f.perfectOrIdeal then 20 else 0) + (if f.strongOrExcellent then 15 else 0)
       + (if f.align then 10 else 0) + (if f.matches then 10 else 0) + (if f.experience then 5 else 0)
       - (if f.limitedOrSome then 10 else 0) - (if f.partial then 15 else 0)
  }

  /** `Math.min(100, Math.max(0, score))` */
  function Clamp(score: int): int {
    if score < 0 then 0 else if score > 100 then 100 else score
  }

  function Score(f: Indicators): int {
    Clamp(RawScore(f))
  }

  /** `calculateMatchScore`: the tests on the lower-cased reasoning, then the score they add up to. */
  method CalculateMatchScore(reasoningText: string) returns (score: int)
    ensures score == Score(IndicatorsOf(reasoningText))
    ensures 25 <= score <= 100
  {
    score := Tally(IndicatorsOf(reasoningText));
  }

  /** The body of `calculateMatchScore` after the tests: `let score` updated by each in turn, then clamped. */
  method Tally(tests: Indicators) returns (score: int)
    ensures score == Score(tests)
    ensures 25 <= score <= 100
  {
    score := 50;
    if tests.perfectOrIdeal { score := score + 20; }
    if tests.strongOrExcellent { score := score + 15; }
    if tests.align { score := score + 10; }
    if tests.matches { score := score + 10; }
    if tests.experience { score := score + 5; }
    if tests.limitedOrSome { score := score - 10; }
    if tests.partial { score := score - 15; }
    score := if score > 100 then 100 else if score < 0 then 0 else score;
    ScoreRange(tests);
  }

  /**
   * The clamp to [0, 100] only ever cuts at the top: the weights put every
   * score in [25, 100], and both ends are reached.
   */
  lemma ScoreRange(f: Indicators)
    ensures 25 <= RawScore(f) <= 110
    ensures 25 <= Score(f) <= 100
    ensures Score(Indicators(false, false, false, false, false, true, true)) == 25
    ensures Score(Indicators(true, true, true, false, false, false, false)) == 95
    ensures Score(Indicators(true, true, true, true, false, false, false)) == 100
  {
  }

  /** A positive indicator never lowers the score and a negative one never raises it. */
  lemma ScoreMonotone(f: Indicators, g: Indicators)
    requires f.perfectOrIdeal ==> g.perfectOrIdeal
    requires f.strongOrExcellent ==> g.strongOrExcellent
    requires f.align ==> g.align
    requires f.matches ==> g.matches
    requires f.experience ==> g.experience
    requires g.limitedOrSome ==> f.limitedOrSome
    requires g.partial ==> f.partial
    ensures Score(f) <= Score(g)
  {
  }

  /** `something` contains `some`: any reasoning with it loses 10. */
  lemma SomethingCountsAsSome(reasoning: string)
    requires Contains(Lower(reasoning), "something")
    ensures IndicatorsOf(reasoning).limitedOrSome
  {
    var r := Lower(reasoning);
    var k := IndexOf(r, "something").value;
    assert r[k..k + 9] == "something";
    assert r[k..k + 4] == "something"[..4] == "some";
    ContainsSlice(r, "some", k);
  }

  // ---- bands ----

  datatype Band = Excellent | Good | Fair | Partial

  /** The thresholds of `getScoreColor`, the bar colour and the insights. */
  function BandOf(score: int): Band {
    if score >= 85 then Excellent else if score >= 70 then Good else if score >= 50 then Fair else Partial
  }

  datatype Style = Style(bg: string, border: string, text: string, title: string)

  /** `getScoreColor` */
  function ScoreColor(score: int): Style {
    if score >= 85 then Style("bg-green-50", "border-green-200", "text-green-700", "Excellent Match")
    else if score >= 70 then Style("bg-blue-50", "border-blue-200", "text-blue-700", "Good Match")
    else if score >= 50 then Style("bg-amber-50", "border-amber-200", "text-amber-700", "Fair Match")
    else Style("bg-orange-50", "border-orange-200", "text-orange-700", "Partial Match")
  }

  function BandLabel(b: Band): string {
    match b
    case Excellent => "Excellent Match"
    case Good => "Good Match"
    case Fair => "Fair Match"
    case Partial => "Partial Match"
  }

  /** The insight paragraphs rendered, each guarded by its own condition. */
  function Insights(score: int): seq<Band> {
    (if score >= 85 then [Excellent] else [])
    + (if score >= 70 && score < 85 then [Good] else [])
    + (if score >= 50 && score < 70 then [Fair] else [])
    + (if score < 50 then [Partial] else [])
  }

  /**
   * The style's title names the band of the score, the bands are ordered by
   * score, and exactly one insight is shown: the one of the same band.
   */
  lemma BandsAgree(score: int, other: int)
    ensures ScoreColor(score).title == BandLabel(BandOf(score))
    ensures Insights(score) == [BandOf(score)]
    ensures score <= other ==> BandRank(BandOf(score)) <= BandRank(BandOf(other))
  {
  }

  function BandRank(b: Band): nat {
    match b
    case Partial => 0
    case Fair => 1
    case Good => 2
    case Excellent => 3
  }
}
