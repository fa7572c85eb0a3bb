/**
  The keyword sentiment classifier: lower-case the text, then look for a
  positive keyword, and only when none occurs, for a negative one.
 */
module Classifier {
  import opened Text

  /** The three labels a review can carry. */
  datatype Sentiment = Positive | Negative | Neutral

  /** The label as it is returned to clients and stored in the table. */
  function Label(s: Sentiment): (name: string)
    ensures |name| > 0 && IsLowerCase(name)
  {
    match s
    case Positive => "positive"
    case Negative => "negative"
    case Neutral => "neutral"
  }

  /** Positive keyword stems ("good", "love"). */
  const PositiveWords: set<string> := {"хорош", "люблю"}

  /** Negative keyword stems ("bad", "hate"). */
  const NegativeWords: set<string> := {"плох", "ненавиж"}

  /** Some word of `words` is a substring of `s`. */
  ghost predicate MentionsAny(words: set<string>, s: string) {
    exists w :: w in words && IsSubstring(w, s)
  }

  /** `any(word in s for word in words)`. */
  function AnyOccurs(words: set<string>, s: string): (b: bool)
    ensures b <==> MentionsAny(words, s)
  {
    exists w | w in words :: Occurs(w, s)
  }

  /** `analyze_sentiment`: positive keywords take precedence over negative ones. */
  function AnalyzeSentiment(review: string): (r: Sentiment)
    ensures r == Positive <==> MentionsAny(PositiveWords, Lower(review))
    ensures r == Negative <==>
              !MentionsAny(PositiveWords, Lower(review)) && MentionsAny(NegativeWords, Lower(review))
    ensures r == Neutral <==>
              !MentionsAny(PositiveWords, Lower(review)) && !MentionsAny(NegativeWords, Lower(review))
  {
    var lowered := Lower(review);
    if AnyOccurs(PositiveWords, lowered) then Positive
    else if AnyOccurs(NegativeWords, lowered) then Negative
    else Neutral
  }

  /** Every keyword is a non-empty lower-case string. */
  lemma KeywordsAreLowerCase()
    ensures forall w :: w in PositiveWords + NegativeWords ==> |w| > 0 && Lower(w) == w
  {
  }

  /** The returned label is one of the three names, and distinct labels have distinct names. */
  lemma LabelsDistinct(a: Sentiment, b: Sentiment)
    ensures Label(a) in {"positive", "negative", "neutral"}
    ensures Label(a) == Label(b) <==> a == b
  {
  }

  /**
    Comparing a lower-cased filter exactly with a stored label is the same as
    comparing both sides lower-cased: labels are already lower case.
   */
  lemma LabelMatchIgnoresCase(f: string, s: Sentiment)
    ensures Lower(f) == Label(s) <==> Lower(f) == Lower(Label(s))
  {
    LowerFixesExactlyLowerCase(Label(s));
  }

  /** The empty review is neutral: no keyword is empty. */
  lemma EmptyIsNeutral()
    ensures AnalyzeSentiment("") == Neutral
  {
  }

  /** Classification ignores case: a text and its lower-cased form get the same label. */
  lemma CaseInsensitive(review: string)
    ensures AnalyzeSentiment(Lower(review)) == AnalyzeSentiment(review)
  {
    LowerIdempotent(review);
  }

  /** Positive precedence: a positive keyword anywhere wins, whatever else occurs. */
  lemma PositiveWins(review: string, w: string, i: int)
    requires w in PositiveWords
    requires OccursAt(w, Lower(review), i)
    ensures AnalyzeSentiment(review) == Positive
  {
  }
}
