/**
  Concrete runs of the service: three sample reviews ("Я люблю этот продукт",
  "Это очень плохо", "Обычный день"), the tie-break between
  positive and negative keywords, substring matching, and a listing filtered
  by sentiment after three inserts.
 */
module Scenarios {
  import opened Text
  import opened Classifier
  import opened Reviews

  /** "I love this product" mentions "люблю" and is positive. */
  lemma LoveIsPositive()
    ensures AnalyzeSentiment("Я люблю этот продукт") == Positive
  {
    var s := "Я люблю этот продукт";
    assert s[2..7] == "люблю";
    LowerSlice(s, 2, 7);
    KeywordsAreLowerCase();
    assert OccursAt("люблю", Lower(s), 2);
  }

  lemma LowerVeryBad()
    ensures Lower("Это очень плохо") == "это очень плохо"
  {
    assert Lower("Это") == "это";
    assert Lower(" очень") == " очень" by {
      LowerFixesExactlyLowerCase(" очень");
    }
    assert Lower(" плохо") == " плохо" by {
      LowerFixesExactlyLowerCase(" плохо");
    }
    LowerConcat("Это", " очень");
    LowerConcat("Это" + " очень", " плохо");
    assert "Это" + " очень" + " плохо" == "Это очень плохо";
    assert "это" + " очень" + " плохо" == "это очень плохо";
  }

  /** "This is very bad" mentions "плох" and no positive keyword, so it is negative. */
  lemma VeryBadIsNegative()
    ensures AnalyzeSentiment("Это очень плохо") == Negative
  {
    LowerVeryBad();
    var s := "это очень плохо";
    assert 'р' !in s && 'б' !in s;
    AbsentCharNoOccurrence("хорош", s, 2);
    AbsentCharNoOccurrence("люблю", s, 2);
    assert OccursAt("плох", s, 10);
  }

  lemma LowerOrdinaryDay()
    ensures Lower("Обычный день") == "обычный день"
  {
    assert Lower("Обычный") == "обычный";
    assert Lower(" день") == " день" by {
      LowerFixesExactlyLowerCase(" день");
    }
    LowerConcat("Обычный", " день");
    assert "Обычный" + " день" == "Обычный день";
    assert "обычный" + " день" == "обычный день";
  }

  /** "An ordinary day" mentions no keyword and is neutral. */
  lemma OrdinaryDayIsNeutral()
    ensures AnalyzeSentiment("Обычный день") == Neutral
  {
    LowerOrdinaryDay();
    var s := "обычный день";
    assert 'х' !in s && 'л' !in s && 'п' !in s && 'а' !in s;
    AbsentCharNoOccurrence("хорош", s, 0);
    AbsentCharNoOccurrence("люблю", s, 0);
    AbsentCharNoOccurrence("плох", s, 0);
    AbsentCharNoOccurrence("ненавиж", s, 3);
  }

  /** Matching is by substring: "not good" still contains "хорош" and is positive. */
  lemma NotGoodIsPositive()
    ensures AnalyzeSentiment("нехорошо") == Positive
  {
    LowerFixesExactlyLowerCase("нехорошо");
    assert OccursAt("хорош", "нехорошо", 2);
  }

  /** Matching ignores case: "GOOD" in capitals is positive. */
  lemma ShoutedGoodIsPositive()
    ensures AnalyzeSentiment("ХОРОШО") == Positive
  {
    assert Lower("ХОРОШО") == "хорошо";
    assert OccursAt("хорош", "хорошо", 0);
  }

  /** Tie-break: "I love and hate" has keywords of both kinds and is positive. */
  lemma LoveAndHateIsPositive()
    ensures MentionsAny(NegativeWords, Lower("люблю и ненавижу"))
    ensures AnalyzeSentiment("люблю и ненавижу") == Positive
  {
    var s := "люблю и ненавижу";
    LowerFixesExactlyLowerCase(s);
    assert OccursAt("люблю", s, 0);
    assert OccursAt("ненавиж", s, 8);
  }

  /** Listing an empty table returns no rows, with or without a filter. */
  lemma EmptyTableListsNothing(f: Option<string>)
    ensures GetReviews(EmptyTable(), f) == []
  {
  }

  lemma LowerNegativeFilter()
    ensures Lower("negative") == "negative"
    ensures Lower("NEGATIVE") == "negative"
  {
    LowerFixesExactlyLowerCase("negative");
  }

  /** Three inserts into an empty table receive ids 1, 2 and 3, in order. */
  lemma ThreeInserts(x1: string, x2: string, x3: string, at1: string, at2: string, at3: string)
    ensures var r1 := CreateReview(EmptyTable(), x1, at1);
            r1.Ok? &&
            var r2 := CreateReview(r1.value.table, x2, at2);
            r2.Ok? &&
            var r3 := CreateReview(r2.value.table, x3, at3);
            r3.Ok? &&
            r3.value.table == Table([Review(1, x1, AnalyzeSentiment(x1), at1),
                                     Review(2, x2, AnalyzeSentiment(x2), at2),
                                     Review(3, x3, AnalyzeSentiment(x3), at3)], 4)
  {
    var c1 := CreateReview(EmptyTable(), x1, at1).value;
    assert c1.table == Table([Review(1, x1, AnalyzeSentiment(x1), at1)], 2);
    var c2 := CreateReview(c1.table, x2, at2).value;
    assert c2.table == Table([Review(1, x1, AnalyzeSentiment(x1), at1), Review(2, x2, AnalyzeSentiment(x2), at2)], 3);
  }

  /** `WHERE sentiment = 'negative'` over one row of each sentiment keeps only the negative row. */
  lemma NegativeOfThree(good: Review, bad: Review, plain: Review)
    requires good.sentiment == Positive && bad.sentiment == Negative && plain.sentiment == Neutral
    ensures WithSentiment([good, bad, plain], "negative") == [bad]
  {
    var key := Label(Negative);
    LabelsDistinct(Positive, Negative);
    LabelsDistinct(Neutral, Negative);
    assert [good][1..] == [] && [bad][1..] == [] && [plain][1..] == [];
    assert WithSentiment([good], key) == [];
    assert WithSentiment([bad], key) == [bad];
    assert WithSentiment([plain], key) == [];
    WithSentimentAppend([good], [bad], key);
    WithSentimentAppend([good] + [bad], [plain], key);
    assert [good, bad, plain] == [good] + [bad] + [plain];
  }

  /**
    With one review of each sentiment stored, `?sentiment=negative` and
    `?sentiment=NEGATIVE` list only the negative one.
   */
  lemma OnePerSentimentFiltered(good: Review, bad: Review, plain: Review, nextId: int)
    requires good.sentiment == Positive && bad.sentiment == Negative && plain.sentiment == Neutral
    ensures GetReviews(Table([good, bad, plain], nextId), Some("negative")) == [bad]
    ensures GetReviews(Table([good, bad, plain], nextId), Some("NEGATIVE")) == [bad]
  {
    LowerNegativeFilter();
    NegativeOfThree(good, bad, plain);
    var t := Table([good, bad, plain], nextId);
    assert GetReviews(t, Some("negative")) == WithSentiment(t.rows, "negative");
    assert GetReviews(t, Some("NEGATIVE")) == WithSentiment(t.rows, "negative");
  }

  /**
    Inserting the sample reviews "Я люблю этот продукт", "Это очень плохо" and
    "Обычный день", then `GET /reviews?sentiment=negative`.
   */
  lemma SampleReviewsFilteredByNegative(at1: string, at2: string, at3: string)
    ensures var r1 := CreateReview(EmptyTable(), "Я люблю этот продукт", at1);
            r1.Ok? &&
            var r2 := CreateReview(r1.value.table, "Это очень плохо", at2);
            r2.Ok? &&
            var r3 := CreateReview(r2.value.table, "Обычный день", at3);
            r3.Ok? &&
            GetReviews(r3.value.table, Some("negative")) == [Review(2, "Это очень плохо", Negative, at2)]
  {
    LoveIsPositive();
    VeryBadIsNegative();
    OrdinaryDayIsNeutral();
    ThreeInserts("Я люблю этот продукт", "Это очень плохо", "Обычный день", at1, at2, at3);
    OnePerSentimentFiltered(Review(1, "Я люблю этот продукт", Positive, at1),
                            Review(2, "Это очень плохо", Negative, at2),
                            Review(3, "Обычный день", Neutral, at3), 4);
  }
}
