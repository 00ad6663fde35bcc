/**
 * The Review schema: its field constraints, the unique (bootcamp, user)
 * index, and the average rating that the `getAverageRating` static writes
 * onto the parent bootcamp.
 */
module ReviewModel {
  import opened Common
  import opened Text
  import opened Arithmetic

  const MaxTitleLength: nat := 100
  const MinRating: real := 1.0
  const MaxRating: real := 10.0

  /** A stored review. */
  datatype Review = Review(title: string, text: string, rating: real, bootcamp: Id, user: Id)

  /** A request body as it reaches `Review.create`: every field may be absent. */
  datatype ReviewBody = ReviewBody(
    title: Option<string>,
    text: Option<string>,
    rating: Option<real>,
    bootcamp: Option<Id>,
    user: Option<Id>)

  /** What every stored review satisfies. */
  predicate ValidReview(r: Review)
  {
    && r.title != "" && Trimmed(r.title) && Utf16Length(r.title) <= MaxTitleLength
    && r.text != ""
    && MinRating <= r.rating <= MaxRating
  }

  /**
   * Casting and validating a body: the title is trimmed, then must be
   * present and at most 100 UTF-16 code units long; text, rating, bootcamp
   * and user are required; the rating must lie in [1, 10].
   */
  function ReviewFromBody(body: ReviewBody): (r: Outcome<Review>)
    ensures r.Ok? <==> && body.title.Some? && body.text.Some? && body.rating.Some?
                       && body.bootcamp.Some? && body.user.Some?
                       && ValidReview(Review(Trim(body.title.value), body.text.value, body.rating.value,
                                             body.bootcamp.value, body.user.value))
    ensures r.Ok? ==> ValidReview(r.value)
    ensures r.Ok? ==> body.title.Some? && r.value.title == Trim(body.title.value)
    ensures r.Ok? ==> body.text == Some(r.value.text) && body.rating == Some(r.value.rating)
    ensures r.Ok? ==> body.bootcamp == Some(r.value.bootcamp) && body.user == Some(r.value.user)
    ensures r.Fail? ==> r.error == Invalid
  {
    var title := if body.title.Some? then Trim(body.title.value) else "";
    if body.title.Some? && title != "" && Utf16Length(title) <= MaxTitleLength
       && body.text.Some? && body.text.value != ""
       && body.rating.Some? && MinRating <= body.rating.value <= MaxRating
       && body.bootcamp.Some? && body.user.Some?
    then
      TrimIdempotent(body.title.value);
      Ok(Review(title, body.text.value, body.rating.value, body.bootcamp.value, body.user.value))
    else Fail(Invalid)
  }

  function ReviewBodyOf(r: Review): ReviewBody
  {
    ReviewBody(Some(r.title), Some(r.text), Some(r.rating), Some(r.bootcamp), Some(r.user))
  }

  /** Every valid review is accepted back from its own body unchanged. */
  lemma ReviewBodyRoundTrip(r: Review)
    requires ValidReview(r)
    ensures ReviewFromBody(ReviewBodyOf(r)) == Ok(r)
  {
    TrimFixed(r.title);
  }

  /** A title of whitespace only, of any kind, trims to nothing and is refused. */
  lemma BlankTitleRejected(body: ReviewBody)
    requires body.title.Some? && forall i :: 0 <= i < |body.title.value| ==> IsSpace(body.title.value[i])
    ensures ReviewFromBody(body) == Fail(Invalid)
  {
    TrimBlank(body.title.value);
  }

  /** A form feed alone is such a title. */
  lemma FormFeedTitleRejected()
    ensures ReviewFromBody(ReviewBody(Some("\U{C}"), Some("t"), Some(5.0), Some(1), Some(2))) == Fail(Invalid)
  {
    BlankTitleRejected(ReviewBody(Some("\U{C}"), Some("t"), Some(5.0), Some(1), Some(2)));
  }

  /** A title of `n` emoji (U+1F600), each two UTF-16 code units long. */
  function Emoji(n: nat): (t: string)
    ensures |t| == n && Trimmed(t)
    ensures forall i :: 0 <= i < |t| ==> t[i] == '\U{1F600}'
  {
    seq(n, _ => '\U{1F600}')
  }

  /**
   * `maxlength` counts code units: 50 emoji (100 units) pass, 51 emoji
   * (102 units) are refused although they are only 51 characters.
   */
  lemma EmojiTitleLimit()
    ensures ReviewFromBody(ReviewBody(Some(Emoji(50)), Some("t"), Some(5.0), Some(1), Some(2))).Ok?
    ensures ReviewFromBody(ReviewBody(Some(Emoji(51)), Some("t"), Some(5.0), Some(1), Some(2))) == Fail(Invalid)
  {
    TrimFixed(Emoji(50));
    Utf16LengthAstral(Emoji(50));
    TrimFixed(Emoji(51));
    Utf16LengthAstral(Emoji(51));
  }

  /** A rating outside [1, 10] is always rejected. */
  lemma RatingOutOfRangeRejected(body: ReviewBody)
    requires body.rating.Some? && !(MinRating <= body.rating.value <= MaxRating)
    ensures ReviewFromBody(body) == Fail(Invalid)
  {
  }

  // ---------------------------------------------------------------------
  // The unique index on (bootcamp, user)
  // ---------------------------------------------------------------------

  /** Whether `u` has already reviewed bootcamp `b`. */
  predicate HasReviewBy(rs: map<Id, Review>, b: Id, u: Id)
  {
    exists k :: k in rs && rs[k].bootcamp == b && rs[k].user == u
  }

  /** The index invariant: no two reviews share a (bootcamp, user) pair. */
  ghost predicate UniqueReviewers(rs: map<Id, Review>)
  {
    forall i, j :: i in rs && j in rs && rs[i].bootcamp == rs[j].bootcamp && rs[i].user == rs[j].user ==> i == j
  }

  /**
   * Inserting a review under a fresh id keeps the index intact exactly when
   * its author has not reviewed that bootcamp yet.
   */
  lemma InsertKeepsUnique(rs: map<Id, Review>, k: Id, r: Review)
    requires UniqueReviewers(rs) && k !in rs
    ensures UniqueReviewers(rs[k := r]) <==> !HasReviewBy(rs, r.bootcamp, r.user)
  {
    if HasReviewBy(rs, r.bootcamp, r.user) {
      var j :| j in rs && rs[j].bootcamp == r.bootcamp && rs[j].user == r.user;
      assert rs[k := r][j].bootcamp == rs[k := r][k].bootcamp && rs[k := r][j].user == rs[k := r][k].user;
      assert j != k;
    }
  }

  /** Removing a review keeps the index intact. */
  lemma RemoveKeepsUnique(rs: map<Id, Review>, k: Id)
    requires UniqueReviewers(rs)
    ensures UniqueReviewers(rs - {k})
  {
  }

  // ---------------------------------------------------------------------
  // The average rating aggregate
  // ---------------------------------------------------------------------

  function ReviewParents(rs: map<Id, Review>): (p: map<Id, Id>)
    ensures p.Keys == rs.Keys
    ensures forall k :: k in rs ==> p[k] == rs[k].bootcamp
  {
    map k | k in rs :: rs[k].bootcamp
  }

  /** `$match: { bootcamp: b }` over reviews whose ids are below `n`. */
  function ReviewsOf(rs: map<Id, Review>, b: Id, n: nat): (r: seq<Id>)
    ensures forall i :: 0 <= i < |r| ==> r[i] < n && r[i] in rs && rs[r[i]].bootcamp == b
  {
    Matching(ReviewParents(rs), b, n)
  }

  function RatingSum(rs: map<Id, Review>, ks: seq<Id>): real
    requires forall i :: 0 <= i < |ks| ==> ks[i] in rs
  {
    if ks == [] then 0.0 else RatingSum(rs, ks[..|ks| - 1]) + rs[ks[|ks| - 1]].rating
  }

  /**
   * What the `$group` stage yields for bootcamp `b`: nothing when no review
   * matches, otherwise the exact mean of the matching ratings.
   */
  function AverageRating(rs: map<Id, Review>, b: Id, n: nat): (r: Option<real>)
    ensures r.None? <==> ReviewsOf(rs, b, n) == []
  {
    var ks := ReviewsOf(rs, b, n);
    if ks == [] then None else Some(RatingSum(rs, ks) / |ks| as real)
  }

  /** The written value is the unrounded mean: times the count, it gives back the sum. */
  lemma AverageRatingIsMean(rs: map<Id, Review>, b: Id, n: nat)
    requires AverageRating(rs, b, n).Some?
    ensures var ks := ReviewsOf(rs, b, n);
            AverageRating(rs, b, n).value * |ks| as real == RatingSum(rs, ks)
  {
    var ks := ReviewsOf(rs, b, n);
    DivideTimes(RatingSum(rs, ks), |ks| as real);
  }

  /**
   * The bootcamps after `getAverageRating(b)`: with no matching review the
   * error is caught and nothing is written; otherwise only `b`'s
   * `averageRating` changes.
   */
  function RatingRecomputed(bs: map<Id, Bootcamp>, rs: map<Id, Review>, b: Id, n: nat): (r: map<Id, Bootcamp>)
    ensures r.Keys == bs.Keys
    ensures forall k :: k in bs && k != b ==> r[k] == bs[k]
    ensures ReviewsOf(rs, b, n) == [] ==> r == bs
    ensures b in bs ==> r[b] == bs[b].(averageRating := r[b].averageRating)
    ensures b in bs && ReviewsOf(rs, b, n) != [] ==> r[b].averageRating == AverageRating(rs, b, n)
  {
    var avg := AverageRating(rs, b, n);
    if avg.None? || b !in bs then bs else bs[b := bs[b].(averageRating := avg)]
  }

  lemma {:induction false} RatingSumBounds(rs: map<Id, Review>, ks: seq<Id>)
    requires forall i :: 0 <= i < |ks| ==> ks[i] in rs && ValidReview(rs[ks[i]])
    ensures MinRating * |ks| as real <= RatingSum(rs, ks) <= MaxRating * |ks| as real
  {
    if ks != [] {
      RatingSumBounds(rs, ks[..|ks| - 1]);
    }
  }

  /** With at least one valid review, the average lies in [1, 10]. */
  lemma AverageRatingInRange(rs: map<Id, Review>, b: Id, n: nat)
    requires forall k :: k in rs ==> ValidReview(rs[k])
    requires AverageRating(rs, b, n).Some?
    ensures MinRating <= AverageRating(rs, b, n).value <= MaxRating
  {
    var ks := ReviewsOf(rs, b, n);
    RatingSumBounds(rs, ks);
    MeanInRange(RatingSum(rs, ks), |ks| as real);
  }

  lemma MeanInRange(s: real, c: real)
    requires c > 0.0 && MinRating * c <= s <= MaxRating * c
    ensures MinRating <= s / c <= MaxRating
  {
    DivideAbove(s, c, MinRating);
    DivideBack(s, c, MaxRating);
  }

  lemma {:induction false} RatingSumAgree(rs: map<Id, Review>, qs: map<Id, Review>, ks: seq<Id>)
    requires forall i :: 0 <= i < |ks| ==> ks[i] in rs && ks[i] in qs && rs[ks[i]].rating == qs[ks[i]].rating
    ensures RatingSum(rs, ks) == RatingSum(qs, ks)
  {
    if ks != [] {
      RatingSumAgree(rs, qs, ks[..|ks| - 1]);
    }
  }

  lemma RatingSumAppend(rs: map<Id, Review>, ks: seq<Id>, k: Id)
    requires k in rs && forall i :: 0 <= i < |ks| ==> ks[i] in rs
    ensures RatingSum(rs, ks + [k]) == RatingSum(rs, ks) + rs[k].rating
  {
    assert (ks + [k])[..|ks|] == ks;
  }

  /** Two collections that hold the same reviews of `b` (by id and rating). */
  ghost predicate SameReviewsOf(rs: map<Id, Review>, qs: map<Id, Review>, b: Id, n: nat)
  {
    (forall k :: k < n ==> (k in rs && rs[k].bootcamp == b <==> k in qs && qs[k].bootcamp == b))
    && (forall k :: k < n && k in rs && rs[k].bootcamp == b ==> k in qs && qs[k].rating == rs[k].rating)
  }

  /** Only the reviews whose `bootcamp` is `b` contribute to `b`'s average. */
  lemma OnlyMatchingReviewsCount(rs: map<Id, Review>, qs: map<Id, Review>, b: Id, n: nat)
    requires SameReviewsOf(rs, qs, b, n)
    ensures ReviewsOf(rs, b, n) == ReviewsOf(qs, b, n)
    ensures AverageRating(rs, b, n) == AverageRating(qs, b, n)
  {
    MatchingAgree(ReviewParents(rs), ReviewParents(qs), b, n);
    RatingSumAgree(rs, qs, ReviewsOf(rs, b, n));
  }

  lemma ReviewParentsInsert(rs: map<Id, Review>, n: nat, r: Review)
    ensures ReviewParents(rs[n := r]) == ReviewParents(rs)[n := r.bootcamp]
  {
  }

  lemma ReviewParentsRemove(rs: map<Id, Review>, k: Id)
    ensures ReviewParents(rs - {k}) == ReviewParents(rs) - {k}
  {
  }

  /** Saving `r` under the fresh id `n` appends `n` to its bootcamp's matches. */
  lemma SavedReviewMatches(rs: map<Id, Review>, n: nat, r: Review)
    requires forall k :: k in rs ==> k < n
    ensures ReviewsOf(rs[n := r], r.bootcamp, n + 1) == ReviewsOf(rs, r.bootcamp, n) + [n]
  {
    ReviewParentsInsert(rs, n, r);
    MatchingInsert(ReviewParents(rs), r.bootcamp, n, r.bootcamp);
  }

  /**
   * The post-save hook sees the new review: the average written after
   * saving `r` under the fresh id `n` is the mean over the earlier ratings
   * of its bootcamp and the new one.
   */
  lemma SavedReviewCounted(rs: map<Id, Review>, n: nat, r: Review)
    requires forall k :: k in rs ==> k < n
    ensures var ks := ReviewsOf(rs, r.bootcamp, n);
            AverageRating(rs[n := r], r.bootcamp, n + 1)
            == Some((RatingSum(rs, ks) + r.rating) / (|ks| + 1) as real)
  {
    var ks := ReviewsOf(rs, r.bootcamp, n);
    var qs, ls := rs[n := r], ks + [n];
    assert ReviewsOf(qs, r.bootcamp, n + 1) == ls by { SavedReviewMatches(rs, n, r); }
    SavedRatingSum(rs, n, r);
    AverageRatingOver(qs, r.bootcamp, n + 1, ls, RatingSum(rs, ks) + r.rating, |ks| + 1);
  }

  /** Summing over the earlier matches and the fresh id adds the new rating. */
  lemma SavedRatingSum(rs: map<Id, Review>, n: nat, r: Review)
    requires forall k :: k in rs ==> k < n
    ensures var ks := ReviewsOf(rs, r.bootcamp, n);
            RatingSum(rs[n := r], ks + [n]) == RatingSum(rs, ks) + r.rating
  {
    var ks := ReviewsOf(rs, r.bootcamp, n);
    var qs := rs[n := r];
    RatingSumAgree(qs, rs, ks);
    RatingSumAppend(qs, ks, n);
  }

  /** Unfolds the average once the matched ids are known. */
  lemma AverageRatingOver(rs: map<Id, Review>, b: Id, n: nat, ks: seq<Id>, sum: real, count: nat)
    requires ReviewsOf(rs, b, n) == ks && ks != [] && |ks| == count
    requires RatingSum(rs, ks) == sum
    ensures AverageRating(rs, b, n) == Some(sum / count as real)
  {
  }

  /**
   * The pre-remove hook runs while the review is still stored: when it is
   * the only review of its bootcamp, the written average is its own rating,
   * and once it is gone no review matches, so that value is never cleared.
   */
  lemma RemovedSoleReviewStillCounted(rs: map<Id, Review>, n: nat, k: Id)
    requires k in rs && k < n
    requires forall j :: j < n && j in rs && rs[j].bootcamp == rs[k].bootcamp ==> j == k
    ensures AverageRating(rs, rs[k].bootcamp, n) == Some(rs[k].rating)
    ensures AverageRating(rs - {k}, rs[k].bootcamp, n) == None
  {
    SoleReviewAverage(rs, n, k);
    NoReviewAfterRemoval(rs, n, k);
  }

  lemma SoleReviewAverage(rs: map<Id, Review>, n: nat, k: Id)
    requires k in rs && k < n
    requires forall j :: j < n && j in rs && rs[j].bootcamp == rs[k].bootcamp ==> j == k
    ensures AverageRating(rs, rs[k].bootcamp, n) == Some(rs[k].rating)
  {
    var b := rs[k].bootcamp;
    assert ReviewsOf(rs, b, n) == [k] by { MatchingSingle(ReviewParents(rs), b, n, k); }
    assert RatingSum(rs, [k]) == rs[k].rating by {
      RatingSumAppend(rs, [], k);
      assert [] + [k] == [k];
    }
    AverageRatingOver(rs, b, n, [k], rs[k].rating, 1);
    assert rs[k].rating / 1 as real == rs[k].rating;
  }

  lemma NoReviewAfterRemoval(rs: map<Id, Review>, n: nat, k: Id)
    requires k in rs
    requires forall j :: j < n && j in rs && rs[j].bootcamp == rs[k].bootcamp ==> j == k
    ensures AverageRating(rs - {k}, rs[k].bootcamp, n) == None
  {
    ReviewParentsRemove(rs, k);
    MatchingEmpty(ReviewParents(rs - {k}), rs[k].bootcamp, n);
  }

  /** Ratings 8 and 6 for bootcamp 1, by two users, and a rating 1 for bootcamp 2. */
  function ExampleReviews(): map<Id, Review>
  {
    var r := Review("Great", "Learned a lot", 8.0, 1, 20);
    map[0 := r, 1 := r.(rating := 6.0, user := 21), 2 := r.(rating := 1.0, bootcamp := 2)]
  }

  lemma ExampleReviewsMatch()
    ensures ReviewsOf(ExampleReviews(), 1, 3) == [0, 1]
  {
    var rs := ExampleReviews();
    var p := ReviewParents(rs);
    assert 0 in rs && 1 in rs && 2 in rs;
    assert p[0] == 1 && p[1] == 1 && p[2] == 2;
    assert Matching(p, 1, 1) == [0];
    assert Matching(p, 1, 2) == [0, 1];
  }

  lemma ExampleReviewsSum()
    ensures RatingSum(ExampleReviews(), [0, 1]) == 14.0
  {
    var rs := ExampleReviews();
    RatingSumAppend(rs, [], 0);
    RatingSumAppend(rs, [0], 1);
    assert [0] + [1] == [0, 1];
  }

  /** Ratings [8, 6] for bootcamp 1, beside a review of another bootcamp, average to 7. */
  lemma AverageRatingExample()
    ensures AverageRating(ExampleReviews(), 1, 3) == Some(7.0)
  {
    ExampleReviewsMatch();
    ExampleReviewsSum();
    AverageRatingOver(ExampleReviews(), 1, 3, [0, 1], 14.0, 2);
  }
}
