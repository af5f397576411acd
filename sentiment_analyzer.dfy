/** The sentiment service: the blank-text shortcut and the five-way category of the
    polarity. TextBlob's scorer is a parameter: `score(text)` is the pair
    `(polarity, subjectivity)` of `TextBlob(text).sentiment`. */
module SentimentAnalyzer {
  import opened Values

  const StronglyPositive := "Strongly Positive"
  const Positive := "Positive"
  const Neutral := "Neutral"
  const Negative := "Negative"
  const StronglyNegative := "Strongly Negative"

  /** The dictionary `analyze_sentiment` returns. */
  datatype Sentiment = Sentiment(polarity: real, subjectivity: real, category: string)

  /** The `if`/`elif` chain of thresholds on the polarity. */
  function Category(polarity: real): (c: string)
    ensures c == StronglyPositive <==> polarity >= 0.5
    ensures c == Positive <==> 0.0 < polarity < 0.5
    ensures c == Neutral <==> polarity == 0.0
    ensures c == Negative <==> -0.5 < polarity < 0.0
    ensures c == StronglyNegative <==> polarity <= -0.5
  {
    if polarity >= 0.5 then StronglyPositive
    else if polarity > 0.0 then Positive
    else if polarity == 0.0 then Neutral
    else if polarity > -0.5 then Negative
    else StronglyNegative
  }

  /** The categories from most negative to most positive. */
  function Rank(c: string): int
  {
    if c == StronglyNegative then 0
    else if c == Negative then 1
    else if c == Neutral then 2
    else if c == Positive then 3
    else if c == StronglyPositive then 4
    else -1
  }

  /** Every polarity has one of the five categories, and a higher polarity never has a
      more negative category. */
  lemma CategoryMonotone(p: real, q: real)
    requires p <= q
    ensures 0 <= Rank(Category(p)) <= Rank(Category(q)) <= 4
  {
  }

  /** `analyze_sentiment(text)` */
  function AnalyzeSentiment(text: string, score: string -> (real, real)): (r: Sentiment)
    ensures IsBlank(text) ==> r == Sentiment(0.0, 0.0, Neutral)
    ensures !IsBlank(text) ==>
      && r.polarity == score(text).0
      && r.subjectivity == score(text).1
      && r.category == Category(score(text).0)
  {
    if IsBlank(text) then Sentiment(0.0, 0.0, Neutral)
    else
      var (polarity, subjectivity) := score(text);
      Sentiment(polarity, subjectivity, Category(polarity))
  }

  /** Whatever the scorer says, the reported category is the one of the reported polarity. */
  lemma CategoryFitsPolarity(text: string, score: string -> (real, real))
    ensures var r := AnalyzeSentiment(text, score);
      r.category == Category(r.polarity)
  {
  }
}
