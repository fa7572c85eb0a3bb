# Review sentiment service, modelled in Dafny

The service accepts short review texts over HTTP (`POST /reviews`), labels
each one `positive`, `negative` or `neutral` with a fixed keyword rule, stores
it in a single SQLite table `reviews(id, text, sentiment, created_at)` and
lists stored reviews, optionally filtered by sentiment (`GET /reviews`).

This project models the two pieces of logic in `app.py`:

- **The classifier** `analyze_sentiment` (module `Classifier`, file
  `classifier.dfy`). The text is lower-cased. If any positive stem (`хорош`,
  `люблю`) is a substring, the result is `positive`, even when a negative stem
  also occurs. Otherwise, if a negative stem (`плох`, `ненавиж`) is a
  substring, the result is `negative`. Otherwise it is `neutral`. The string
  primitives it needs are in module `Text` (`text.dfy`): `str.lower()` and
  substring membership (`w in s`). Substring membership is defined as a
  predicate (`IsSubstring`, "there is a position where `w` starts") and
  computed by a left-to-right search (`Occurs`) proved equal to it.
- **The review table** behind `create_review` and `get_reviews` (module
  `Reviews`, file `reviews.dfy`). SQLite is replaced by an immutable `Table`.
  It holds the rows in insertion order and the AUTOINCREMENT counter
  `nextId`, which starts at 1. An insert classifies the text, appends one
  `Review(id, text, sentiment, createdAt)` and returns that same record. A
  listing returns every row when the `sentiment` parameter is absent or
  empty; Python treats `""` as false there. Otherwise it returns, in table
  order, the rows whose stored sentiment name equals the lower-cased
  parameter. `Step` and `Run` replay a sequence of requests. They show that the
  table is append-only and that ids from an empty table are 1, 2, 3, …

`scenarios.dfy` (module `Scenarios`) works through concrete inputs: three
sample reviews ("Я люблю этот продукт", "Это очень плохо", "Обычный день"), a listing filtered by `negative` after inserting them, the
tie-break, and substring and upper-case matching.

The timestamp (`datetime.utcnow().isoformat()`) is a clock read. It is an
opaque `createdAt` parameter of `CreateReview`.

The table invariant `Valid` says:

- ids are at least 1;
- ids strictly increase in table order, so they are unique;
- every id is below the counter;
- the counter never exceeds SQLite's largest rowid plus one;
- every stored sentiment is the classifier's verdict on the stored text.

`EmptyTable` establishes `Valid`, and `CreateReview`, `Step` and `Run` keep it.

Three facts about the code that a reader might not expect:

- `create_review` does not check that `text` is non-empty. So `""` is stored
  and classified `neutral` (`EmptyIsNeutral`).
- `get_reviews` lower-cases only the query parameter and compares it exactly
  with the stored name. Stored names are already lower case, so this exact
  comparison equals a case-insensitive one (`LabelMatchIgnoresCase`).
- Listing after an insert of text `t` can show several records with text
  `t`, when earlier reviews had the same text. Exactly one listed record
  carries the new id (`CreatedIsListedOnce`).

## Model

| member | source | states |
|---|---|---|
| Text.Lower | app.py:55 | lower-casing keeps the length, maps each character independently, and leaves no capital letter in the result |
| Text.LowerFixesExactlyLowerCase | app.py:55 | `lower()` leaves a string unchanged if and only if it has no capital letter |
| Text.LowerIdempotent | app.py:55 | lower-casing an already lower-cased string changes nothing |
| Text.LowerConcat | app.py:55 | lower-casing the concatenation of two strings equals concatenating their lower-cased forms |
| Text.LowerSlice | app.py:55 | lower-casing a slice of a string gives the same slice of the lower-cased string |
| Text.Occurs | app.py:57 | the search for `word in review_lower` answers true exactly when the word starts at some position of the text (true for the empty word) |
| Text.SubstringOfTail | app.py:57 | when the word does not start at position 0, it occurs in the text exactly when it occurs in the text minus its first character |
| Text.AbsentCharNoOccurrence | app.py:57 | a word containing a character that the text lacks is not a substring of it |
| Classifier.Label | app.py:58-61 | every label name is non-empty and already lower case, so `lower()` of a label name is that name |
| Classifier.AnyOccurs | app.py:57 | `any(word in s for word in words)` is true exactly when some word of the set is a substring of `s` |
| Classifier.AnalyzeSentiment | app.py:54-61 | the result is positive iff a positive stem occurs in the lower-cased text; negative iff no positive stem and some negative stem occurs; neutral iff neither occurs; the function is total |
| Classifier.KeywordsAreLowerCase | app.py:11-12 | every keyword is non-empty and already lower case, so matching against the lower-cased text compares like with like |
| Classifier.LabelsDistinct | app.py:54-61 | every result names one of `positive`, `negative`, `neutral`, and different labels have different names |
| Classifier.LabelMatchIgnoresCase | app.py:97-101 | comparing the lower-cased filter exactly with a stored label gives the same answer as comparing both lower-cased, since labels are lower case |
| Classifier.EmptyIsNeutral | app.py:54-61 | the empty review is classified neutral, because no keyword is empty |
| Classifier.CaseInsensitive | app.py:55-60 | a text and its lower-cased form get the same label |
| Classifier.PositiveWins | app.py:57-58 | if a positive stem occurs at any position of the lower-cased text, the result is positive, whatever negative stems also occur |
| Reviews.EmptyTable | app.py:43-48 | the freshly created table has no rows and satisfies the table invariant, with the first id to issue being 1 |
| Reviews.CreateReview | app.py:70-89 | the insert fails iff the id counter is past the largest rowid; otherwise it appends exactly one row and leaves earlier rows unchanged; the row's text is the input verbatim, its sentiment is `AnalyzeSentiment(text)` and its timestamp is the given one; its id exceeds every earlier id; the returned record is the stored row; the invariant is kept |
| Reviews.WithSentiment | app.py:98-101 | `WHERE sentiment = ?`: a row is in the result iff it is in the input and its sentiment name equals the key; the result is no longer than the input |
| Reviews.GetReviews | app.py:93-116 | an absent or empty filter lists every row; a non-empty filter lists exactly the rows whose sentiment name equals the lower-cased filter; when the table's ids increase, so do the listed ids (table order is kept) |
| Reviews.WithSentimentAppend | app.py:98-106 | filtering the concatenation of two row sequences equals concatenating their filtered forms, so filtering keeps row order |
| Reviews.WithSentimentAbove | app.py:98-106 | filtering keeps any lower bound that all ids of the input respect |
| Reviews.WithSentimentOrdered | app.py:98-106 | filtering rows whose ids strictly increase yields rows whose ids strictly increase |
| Reviews.UnknownFilterListsNothing | app.py:97-101 | a non-empty filter whose lower-cased form names no sentiment lists nothing |
| Reviews.FilterIgnoresCase | app.py:100 | a filter and its lower-cased form list the same rows |
| Reviews.ListInTableOrder | app.py:97-116 | on a valid table, a filtered listing is in table order and holds exactly the rows whose sentiment name equals the lower-cased filter |
| Reviews.ListAfterCreate | app.py:76-116 | after a successful insert, every listing is the previous listing followed by the new record if it matches the filter, and unchanged otherwise |
| Reviews.CreatedIsListedOnce | app.py:84-89 | after an insert, the unfiltered listing ends with the returned record and no other listed row has its id |
| Reviews.Step | app.py:69-116 | one request keeps the invariant, keeps earlier rows and never lowers the counter; a listing leaves the table unchanged |
| Reviews.Run | app.py:69-116 | every sequence of requests from a valid table ends in a valid table: ids stay unique and increasing, and stored sentiments stay the classifier's verdict |
| Reviews.RunAppendOnly | app.py:76-81 | across any sequence of requests, the original rows stay a prefix of the table and the counter never goes back |
| Reviews.RunKeepsDense | app.py:44 | from a table whose ids are 1..n with counter n+1 (such as the empty table), any sequence of requests keeps ids numbered 1, 2, 3, … in order |
| Scenarios.LoveIsPositive | app.py:57-58 | "Я люблю этот продукт" is positive |
| Scenarios.VeryBadIsNegative | app.py:59-60 | "Это очень плохо" is negative |
| Scenarios.OrdinaryDayIsNeutral | app.py:61 | "Обычный день" is neutral |
| Scenarios.NotGoodIsPositive | app.py:57 | "нехорошо" ("not good") is positive, because matching is by substring, not whole word |
| Scenarios.ShoutedGoodIsPositive | app.py:55-57 | "ХОРОШО" in capitals is positive |
| Scenarios.LoveAndHateIsPositive | app.py:57-60 | "люблю и ненавижу" mentions a negative stem yet is positive, because the positive check comes first |
| Scenarios.EmptyTableListsNothing | app.py:93-116 | listing an empty table returns no rows, with or without a filter |
| Scenarios.ThreeInserts | app.py:70-89 | three inserts into an empty table all succeed and store, in order, rows with ids 1, 2 and 3, each with its text, its classifier verdict and its timestamp |
| Scenarios.NegativeOfThree | app.py:98-101 | over one positive, one negative and one neutral row, `WHERE sentiment = 'negative'` keeps only the negative row |
| Scenarios.OnePerSentimentFiltered | app.py:97-116 | with one positive, one negative and one neutral row stored, `?sentiment=negative` and `?sentiment=NEGATIVE` both list only the negative row |
| Scenarios.SampleReviewsFilteredByNegative | app.py:70-116 | after inserting the sample reviews "Я люблю этот продукт", "Это очень плохо" and "Обычный день" into an empty table, `?sentiment=negative` lists exactly the "Это очень плохо" record with id 2 |

## Left out

- The FastAPI routing, pydantic request/response validation and the `uvicorn` entry point (app.py:6-7, 15-22, 64-65, 69, 92, 119-121). They are framework plumbing. The model takes `text` as an already validated string, so the validation-error path is not modelled.
- SQLite connection handling and `commit` (app.py:32-37, 50, 82). These are I/O and resource management. The only storage error modelled is the one that follows from the id counter (AUTOINCREMENT refuses to go past rowid 2^63-1). Disk and connection failures are not modelled.
- `init_db`'s `CREATE TABLE IF NOT EXISTS` (app.py:39-50). This is schema I/O, and the table starts empty (`EmptyTable`). A table left by earlier runs of this code is `Valid`, because `Run` reaches it from `EmptyTable`. Tables written otherwise are not covered. That includes a `reviews.db` written by other code or by a version with other keyword sets, whose rows may carry a sentiment that is not the classifier's verdict, or a string outside the three names.
- The row order of the un-ordered `SELECT` (app.py:99, 104). SQLite does not guarantee it. The model assumes insertion order, which is also id order.
- `datetime.utcnow().isoformat()` (app.py:72). This is a clock read. It is the `createdAt` parameter, and its format is not checked.
- Concurrent writers and SQLite locking. Requests are applied one at a time (`Run`).
- Text.Lower: models Python's `str.lower()` only for `A`–`Z` and the Cyrillic capitals U+0400–U+042F, which cover the keywords, the labels and the sample texts in `scenarios.dfy`. Every other character is left unchanged, so capitals of other scripts (Greek, Latin-1, …) are not lowered. Mappings that change the length (such as U+0130 becoming two code points) are not modelled either.
- Reviews.GetReviews: compares the lower-cased filter with the stored sentiment name through `Label`. The column holds only the three names the classifier produces, so string equality on the column is equality of names.
