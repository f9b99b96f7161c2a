/**
 * Sentiment classification of one text. The lexicon scoring itself belongs to
 * an external library; the model takes it as a function `score` from a text
 * to its compound polarity and keeps only the mapping from the sign of that
 * score to a category.
 */
module Classifier {
  import opened Records

  /** The compound polarity the analyzer assigns to a text. */
  type Scorer = string -> real

  /** The category of a compound score. */
  function Category(score: real): (c: Sentiment)
    ensures c == Positive <==> score > 0.0
    ensures c == Negative <==> score < 0.0
    ensures c == Neutral <==> score == 0.0
  {
    if score > 0.0 then Positive
    else if score < 0.0 then Negative
    else Neutral
  }

  /** `analyze_sentiment(text)`. */
  function AnalyzeSentiment(score: Scorer, text: string): Sentiment
  {
    Category(score(text))
  }

  /** The categories in the order of the scores they stand for. */
  function Rank(c: Sentiment): int
  {
    match c
    case Negative => -1
    case Neutral => 0
    case Positive => 1
  }

  /** A higher score never gives a lower category. */
  lemma CategoryMonotone(a: real, b: real)
    requires a <= b
    ensures Rank(Category(a)) <= Rank(Category(b))
  {
  }
}
