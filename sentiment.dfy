/**
 * The dashboard's sentiment colouring: a three-way threshold classifier on the
 * numeric score (used per point of the histogram) and a label-to-style lookup
 * (used on the sentiment-category column of the table).
 */
module Sentiment {

  const NegativeColor: string := "#EA4335"
  const NeutralColor: string := "#FBBC05"
  const PositiveColor: string := "#34A853"

  /** Scores from LowThreshold to HighThreshold, both included, are neutral. */
  const LowThreshold: real := -0.2
  const HighThreshold: real := 0.2

  /** The colour of one histogram point, chosen from its sentiment score. */
  function ColorForValue(value: real): (c: string)
    ensures c == NegativeColor <==> value < LowThreshold
    ensures c == NeutralColor <==> LowThreshold <= value <= HighThreshold
    ensures c == PositiveColor <==> HighThreshold < value
  {
    if value < LowThreshold then NegativeColor
    else if LowThreshold <= value <= HighThreshold then NeutralColor
    else PositiveColor
  }

  /** The cell style of a sentiment-category label; unknown labels are black. */
  function SentimentColor(sentiment: string): (style: string)
    ensures sentiment == "Positive" ==> style == "color: " + PositiveColor
    ensures sentiment == "Neutral" ==> style == "color: " + NeutralColor
    ensures sentiment == "Negative" ==> style == "color: " + NegativeColor
    ensures sentiment !in {"Positive", "Neutral", "Negative"} ==> style == "color: black"
  {
    var styles := map[
      "Positive" := "color: #34A853",
      "Neutral" := "color: #FBBC05",
      "Negative" := "color: #EA4335"
    ];
    if sentiment in styles then styles[sentiment] else "color: black"
  }

  /** The category label the reviews table carries for a score. */
  function CategoryOf(score: real): (category: string)
    ensures category in {"Negative", "Neutral", "Positive"}
    ensures category == "Negative" <==> score < LowThreshold
    ensures category == "Positive" <==> HighThreshold < score
  {
    if score < LowThreshold then "Negative"
    else if score <= HighThreshold then "Neutral"
    else "Positive"
  }

  /**
   * The table's label style and the histogram's per-point colour agree: a row
   * whose label is the category of its score is styled in its point's colour.
   */
  lemma StyleAgreesWithPointColor(score: real)
    ensures SentimentColor(CategoryOf(score)) == "color: " + ColorForValue(score)
  {
    var category := CategoryOf(score);
    if category == "Negative" {
      assert ColorForValue(score) == NegativeColor;
    } else if category == "Positive" {
      assert ColorForValue(score) == PositiveColor;
    } else {
      assert ColorForValue(score) == NeutralColor;
    }
  }

  /** Scores -0.5, 0.0 and 0.9 are coloured negative, neutral and positive. */
  lemma ThreeReviewScenario()
    ensures [ColorForValue(-0.5), ColorForValue(0.0), ColorForValue(0.9)]
         == [NegativeColor, NeutralColor, PositiveColor]
    ensures [CategoryOf(-0.5), CategoryOf(0.0), CategoryOf(0.9)] == ["Negative", "Neutral", "Positive"]
  {
  }
}
