/**
  The `reviews` table behind `POST /reviews` and `GET /reviews`, modelled as an
  append-only sequence of rows plus the AUTOINCREMENT counter that hands out
  ids. Rows are listed in insertion order.
 */
module Reviews {
  import opened Text
  import opened Classifier

  /** An optional query parameter. */
  datatype Option<T> = None | Some(value: T)

  /** One row of the table, as it is stored and as it is returned. */
  datatype Review = Review(id: int, text: string, sentiment: Sentiment, createdAt: string)

  /** The rows in insertion order and the id the next insert receives. */
  datatype Table = Table(rows: seq<Review>, nextId: int)

  /** An INSERT that the storage engine refuses. */
  datatype StoreError = DatabaseFull

  datatype Result<T> = Ok(value: T) | Err(error: StoreError)

  /** What a successful insert yields: the new table and the record handed back. */
  datatype Created = Created(table: Table, review: Review)

  /** Largest rowid SQLite can assign (a signed 64-bit integer). */
  const MaxRowId: int := 0x7FFF_FFFF_FFFF_FFFF

  /** Ids are positive, strictly increasing in table order, all below the counter. */
  predicate IdsOrdered(t: Table) {
    && 1 <= t.nextId <= MaxRowId + 1
    && (forall i :: 0 <= i < |t.rows| ==> 1 <= t.rows[i].id < t.nextId)
    && Increasing(t.rows)
  }

  /** Every stored sentiment is the classifier's verdict on the stored text. */
  predicate Classified(rows: seq<Review>) {
    forall i :: 0 <= i < |rows| ==> rows[i].sentiment == AnalyzeSentiment(rows[i].text)
  }

  /** The table invariant that every reachable state keeps. */
  predicate Valid(t: Table) {
    IdsOrdered(t) && Classified(t.rows)
  }

  /** A fresh table: no rows, and the first id issued is 1. */
  function EmptyTable(): (t: Table)
    ensures Valid(t) && t.rows == []
    ensures t.nextId == 1
  {
    Table([], 1)
  }

  /**
    `create_review`: classify the text, insert it with the given timestamp and
    hand back the stored record. With AUTOINCREMENT the engine refuses to go
    past the largest rowid rather than reuse an id.
   */
  function CreateReview(t: Table, text: string, createdAt: string): (res: Result<Created>)
    requires Valid(t)
    ensures res.Err? <==> t.nextId > MaxRowId
    ensures res.Ok? ==>
              var c := res.value;
              && Valid(c.table)
              && c.table.rows == t.rows + [c.review]
              && c.review.text == text
              && c.review.sentiment == AnalyzeSentiment(text)
              && c.review.createdAt == createdAt
              && t.nextId <= c.review.id < c.table.nextId
              && (forall r :: r in t.rows ==> r.id < c.review.id)
  {
    if t.nextId > MaxRowId then Err(DatabaseFull)
    else
      var review := Review(t.nextId, text, AnalyzeSentiment(text), createdAt);
      Ok(Created(Table(t.rows + [review], t.nextId + 1), review))
  }

  /** The rows, in order, whose stored sentiment name is `key` (`WHERE sentiment = ?`). */
  function WithSentiment(rows: seq<Review>, key: string): (r: seq<Review>)
    ensures |r| <= |rows|
    ensures forall x :: x in r <==> x in rows && Label(x.sentiment) == key
  {
    if rows == [] then []
    else
      var rest := WithSentiment(rows[1..], key);
      if Label(rows[0].sentiment) == key then [rows[0]] + rest else rest
  }

  /**
    `get_reviews`: an absent or empty `sentiment` parameter lists everything
    (Python treats `""` as false); otherwise the parameter is lower-cased and
    compared with the stored sentiment name.
   */
  function GetReviews(t: Table, sentiment: Option<string>): (r: seq<Review>)
    ensures sentiment.None? || sentiment.value == "" ==> r == t.rows
    ensures sentiment.Some? && sentiment.value != "" ==>
              forall x :: x in r <==> x in t.rows && Label(x.sentiment) == Lower(sentiment.value)
    ensures Increasing(t.rows) ==> Increasing(r)
  {
    if sentiment.Some? && sentiment.value != "" then
      var key := Lower(sentiment.value);
      if Increasing(t.rows) then WithSentimentOrdered(t.rows, key); WithSentiment(t.rows, key)
      else WithSentiment(t.rows, key)
    else t.rows
  }

  /** Filtering distributes over concatenation: it keeps the order of the rows. */
  lemma {:induction false} WithSentimentAppend(a: seq<Review>, b: seq<Review>, key: string)
    ensures WithSentiment(a + b, key) == WithSentiment(a, key) + WithSentiment(b, key)
    decreases |a|
  {
    if a == [] {
      assert a + b == b;
    } else {
      assert (a + b)[1..] == a[1..] + b;
      WithSentimentAppend(a[1..], b, key);
    }
  }

  /** A filter that names no sentiment, such as a misspelt one, lists nothing. */
  lemma UnknownFilterListsNothing(t: Table, f: string)
    requires f != "" && Lower(f) !in {"positive", "negative", "neutral"}
    ensures GetReviews(t, Some(f)) == []
  {
    var r := GetReviews(t, Some(f));
    if r != [] {
      LabelsDistinct(r[0].sentiment, r[0].sentiment);
    }
  }

  /** The filter's case does not matter: `?sentiment=POSITIVE` lists the same rows as `?sentiment=positive`. */
  lemma FilterIgnoresCase(t: Table, f: string)
    ensures GetReviews(t, Some(f)) == GetReviews(t, Some(Lower(f)))
  {
    LowerIdempotent(f);
  }

  /** Ids strictly increase along `rows`. */
  predicate Increasing(rows: seq<Review>) {
    forall i, j :: 0 <= i < j < |rows| ==> rows[i].id < rows[j].id
  }

  /** Every id in `rows` exceeds `bound`. */
  predicate Above(rows: seq<Review>, bound: int) {
    forall k :: 0 <= k < |rows| ==> bound < rows[k].id
  }

  /** Filtering keeps a lower bound on the ids. */
  lemma WithSentimentAbove(rows: seq<Review>, key: string, bound: int)
    requires Above(rows, bound)
    ensures Above(WithSentiment(rows, key), bound)
  {
  }

  /** Listed rows keep the table's order: their ids strictly increase. */
  lemma {:induction false} WithSentimentOrdered(rows: seq<Review>, key: string)
    requires Increasing(rows)
    ensures Increasing(WithSentiment(rows, key))
    decreases |rows|
  {
    if rows != [] {
      var tail := rows[1..];
      WithSentimentOrdered(tail, key);
      assert Above(tail, rows[0].id) by {
        forall k | 0 <= k < |tail| ensures rows[0].id < tail[k].id {
          assert tail[k] == rows[k + 1];
        }
      }
      WithSentimentAbove(tail, key, rows[0].id);
    }
  }

  /** A filtered listing is in table order and contains exactly the matching rows. */
  lemma ListInTableOrder(t: Table, f: string)
    requires Valid(t) && f != ""
    ensures var r := GetReviews(t, Some(f));
            && Increasing(r)
            && (forall x :: x in r <==> x in t.rows && Label(x.sentiment) == Lower(f))
  {
    WithSentimentOrdered(t.rows, Lower(f));
  }

  /** After an insert, every listing is the old listing plus the new record when it matches. */
  lemma ListAfterCreate(t: Table, text: string, createdAt: string, f: Option<string>)
    requires Valid(t)
    requires CreateReview(t, text, createdAt).Ok?
    ensures var c := CreateReview(t, text, createdAt).value;
            var matches := f.None? || f.value == "" || Label(c.review.sentiment) == Lower(f.value);
            GetReviews(c.table, f) == GetReviews(t, f) + (if matches then [c.review] else [])
  {
    var c := CreateReview(t, text, createdAt).value;
    if f.Some? && f.value != "" {
      var key := Lower(f.value);
      WithSentimentAppend(t.rows, [c.review], key);
      assert WithSentiment([c.review], key) == (if Label(c.review.sentiment) == key then [c.review] else []) by {
        assert [c.review][1..] == [];
      }
    }
  }

  /** The record `create_review` returns is the only listed row carrying its id. */
  lemma CreatedIsListedOnce(t: Table, text: string, createdAt: string)
    requires Valid(t)
    requires CreateReview(t, text, createdAt).Ok?
    ensures var c := CreateReview(t, text, createdAt).value;
            var all := GetReviews(c.table, None);
            && all[|all| - 1] == c.review
            && forall i :: 0 <= i < |all| && all[i].id == c.review.id ==> i == |all| - 1
  {
  }

  /** A request the service answers. */
  datatype Request = Create(text: string, createdAt: string) | List(sentiment: Option<string>)

  /** The table after one request: a list never changes it, a refused insert neither. */
  function Step(t: Table, req: Request): (t': Table)
    requires Valid(t)
    ensures Valid(t')
    ensures t.rows <= t'.rows && t.nextId <= t'.nextId
    ensures req.List? ==> t' == t
  {
    match req
    case List(_) => t
    case Create(text, createdAt) =>
      match CreateReview(t, text, createdAt)
      case Ok(c) => c.table
      case Err(_) => t
  }

  /** The table after a sequence of requests. */
  function Run(t: Table, reqs: seq<Request>): (t': Table)
    requires Valid(t)
    ensures Valid(t')
    decreases |reqs|
  {
    if reqs == [] then t else Run(Step(t, reqs[0]), reqs[1..])
  }

  /** Append-only: earlier rows survive any sequence of requests, and the counter never goes back. */
  lemma {:induction false} RunAppendOnly(t: Table, reqs: seq<Request>)
    requires Valid(t)
    ensures t.rows <= Run(t, reqs).rows
    ensures t.nextId <= Run(t, reqs).nextId
    decreases |reqs|
  {
    if reqs != [] {
      RunAppendOnly(Step(t, reqs[0]), reqs[1..]);
    }
  }

  /** Rows numbered 1, 2, 3, ... in order, with the counter one past the last. */
  predicate Dense(t: Table) {
    && t.nextId == |t.rows| + 1
    && forall i :: 0 <= i < |t.rows| ==> t.rows[i].id == i + 1
  }

  /** Starting from an empty table, the ids handed out are exactly 1, 2, 3, ... */
  lemma {:induction false} RunKeepsDense(t: Table, reqs: seq<Request>)
    requires Valid(t) && Dense(t)
    ensures Dense(Run(t, reqs))
    decreases |reqs|
  {
    if reqs != [] {
      var t1 := Step(t, reqs[0]);
      assert Dense(t1);
      RunKeepsDense(t1, reqs[1..]);
    }
  }
}
