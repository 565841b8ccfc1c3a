/** The review store (app/models/review_models.py): creation behind a completed booking and a
    one-review-per-booking check, the artisan's rating summary kept on their account, the
    `$set` update, deletion, the per-star distribution of an artisan's ratings, and the
    listing with client, artisan and booking attached.

    The average of a list of ratings, a floating-point mean rounded to one decimal, is a
    parameter `average`. */
module ReviewModels {
  import opened Common
  import opened BookingSchemas
  import opened ReviewSchemas
  import opened UserModels
  import opened BookingModels

  datatype Review = Review(
    id: string,
    clientId: string,
    artisanId: string,
    bookingId: string,
    rating: int,
    comment: string,
    createdAt: int,
    updatedAt: int)

  /** The two collections the manager writes. */
  datatype ReviewDb = ReviewDb(reviews: seq<Review>, users: seq<User>)

  /** `find_review_by_id`: a malformed id raises and is answered None; otherwise the first
      review with that id. */
  function FindReviewById(reviews: seq<Review>, reviewId: string): (r: Option<Review>)
    ensures r.Some? <==> IsObjectId(reviewId) && exists i | 0 <= i < |reviews| :: reviews[i].id == CanonicalId(reviewId)
    ensures r.Some? ==> r.value in reviews && r.value.id == CanonicalId(reviewId)
  {
    if !IsObjectId(reviewId) then None
    else
      var i := IndexWhere(reviews, (r: Review) => r.id == CanonicalId(reviewId));
      if i.Some? then Some(reviews[i.value]) else None
  }

  // ---------------------------------------------------------------------------------------------
  // The artisan's rating summary

  function ByArtisan(artisanId: string): Review -> bool {
    (r: Review) => r.artisanId == artisanId
  }

  /** The ratings of an artisan's reviews in store order (the `$push` of the `$group`). */
  function RatingsOf(reviews: seq<Review>, artisanId: string): seq<int>
    decreases |reviews|
  {
    if reviews == [] then []
    else
      var last := reviews[|reviews| - 1];
      RatingsOf(reviews[..|reviews| - 1], artisanId) + (if last.artisanId == artisanId then [last.rating] else [])
  }

  /** One rating per review of the artisan, each one of theirs. */
  lemma {:induction false} RatingsOfSpec(reviews: seq<Review>, artisanId: string)
    ensures |RatingsOf(reviews, artisanId)| == Count(reviews, ByArtisan(artisanId))
    ensures forall x | x in RatingsOf(reviews, artisanId) :: exists i | 0 <= i < |reviews| :: reviews[i].artisanId == artisanId && reviews[i].rating == x
    decreases |reviews|
  {
    if reviews != [] {
      var init := reviews[..|reviews| - 1];
      RatingsOfSpec(init, artisanId);
      forall x | x in RatingsOf(reviews, artisanId)
        ensures exists i | 0 <= i < |reviews| :: reviews[i].artisanId == artisanId && reviews[i].rating == x
      {
        if x in RatingsOf(init, artisanId) {
          var i :| 0 <= i < |init| && init[i].artisanId == artisanId && init[i].rating == x;
          assert reviews[i] == init[i];
        } else {
          assert reviews[|reviews| - 1].rating == x;
        }
      }
    }
  }

  /** The fields the summary sets on the artisan's account. */
  function SummaryFields(ratings: seq<int>, average: seq<int> -> Value): Doc {
    if ratings == [] then map["average_rating" := Int(0), "review_count" := Int(0)]
    else map["average_rating" := average(ratings), "review_count" := Int(|ratings|)]
  }

  /** `_update_artisan_rating` as written: when the artisan has no review left the aggregation
      is empty and nothing is written; a malformed artisan id makes `ObjectId` raise, which is
      swallowed. */
  function RefreshRatingAsWritten(users: seq<User>, reviews: seq<Review>, artisanId: string, average: seq<int> -> Value): (r: seq<User>)
    ensures |r| == |users|
    ensures RatingsOf(reviews, artisanId) == [] ==> r == users
  {
    var ratings := RatingsOf(reviews, artisanId);
    if ratings == [] || !IsObjectId(artisanId) then users
    else SetFields(users, CanonicalId(artisanId), SummaryFields(ratings, average))
  }

  /** The summary as intended: an artisan without reviews is given an average and a count of
      0, the values the statistics route reports for them. */
  function RefreshRating(users: seq<User>, reviews: seq<Review>, artisanId: string, average: seq<int> -> Value): (r: seq<User>)
    ensures |r| == |users| && forall i | 0 <= i < |r| :: r[i].id == users[i].id
  {
    if !IsObjectId(artisanId) then users
    else SetFields(users, CanonicalId(artisanId), SummaryFields(RatingsOf(reviews, artisanId), average))
  }

  /** After the refresh the artisan's account holds the number of their reviews, every other
      account is as it was, and the written version differs only when no review is left. */
  lemma RefreshRatingSpec(users: seq<User>, reviews: seq<Review>, artisanId: string, average: seq<int> -> Value)
    ensures var after := RefreshRating(users, reviews, artisanId, average);
      && |after| == |users|
      && (forall i | 0 <= i < |users| && users[i].id != CanonicalId(artisanId) :: after[i] == users[i])
      && (FindUserById(users, artisanId).Some? ==>
            && FindUserById(after, artisanId).Some?
            && FindUserById(after, artisanId).value.doc["review_count"] == Int(Count(reviews, ByArtisan(artisanId))))
      && (RatingsOf(reviews, artisanId) != [] ==> after == RefreshRatingAsWritten(users, reviews, artisanId, average))
  {
    RatingsOfSpec(reviews, artisanId);
    if IsObjectId(artisanId) && FindUserById(users, artisanId).Some? {
      var key := CanonicalId(artisanId);
      var i := IndexWhere(users, (u: User) => u.id == key).value;
      var after := RefreshRating(users, reviews, artisanId, average);
      assert after[i].id == key;
      assert forall k | 0 <= k < i :: after[k] == users[k];
      IndexWhereAt(after, (u: User) => u.id == key, i);
    }
  }

  /** The written refresh leaves a stale count behind: an artisan whose only review is gone
      keeps `review_count` 1. */
  lemma LastReviewLeavesStaleCount(average: seq<int> -> Value)
    ensures var artisan := User("000000000000000000000001", map["review_count" := Int(1)]);
      && RefreshRatingAsWritten([artisan], [], artisan.id, average)[0].doc["review_count"] == Int(1)
      && RefreshRating([artisan], [], artisan.id, average)[0].doc["review_count"] == Int(0)
  {
    var artisan := User("000000000000000000000001", map["review_count" := Int(1)]);
    assert IsObjectId(artisan.id);
    assert CanonicalId(artisan.id) == artisan.id;
    IndexWhereAt([artisan], (u: User) => u.id == artisan.id, 0);
  }

  // ---------------------------------------------------------------------------------------------
  // Creation

  /** `create_review`'s answer: the stored review, or the reason it raised. */
  datatype CreateAnswer =
    | Created(review: Review)
    /** `ValueError`: no completed booking between this client and this artisan. */
    | NoCompletedBooking
    /** `ValueError`: the client already reviewed this booking. */
    | AlreadyReviewed
    /** `ObjectId` raised on the booking id (not a `ValueError`). */
    | MalformedBookingId

  /** The booking `create_review` looks for: that id, that client, that artisan, completed. */
  function CompletedBookingFor(bookings: seq<Booking>, body: ReviewCreate): (r: Option<Booking>)
    requires IsObjectId(body.bookingId)
    ensures r.Some? <==> exists i | 0 <= i < |bookings| ::
      && bookings[i].id == CanonicalId(body.bookingId) && bookings[i].clientId == body.clientId
      && bookings[i].artisanId == body.artisanId && bookings[i].status == Completed
    ensures r.Some? ==> r.value in bookings
  {
    var i := IndexWhere(bookings, (b: Booking) =>
      b.id == CanonicalId(body.bookingId) && b.clientId == body.clientId && b.artisanId == body.artisanId && b.status == Completed);
    if i.Some? then Some(bookings[i.value]) else None
  }

  /** The duplicate test as written: the stored booking id is compared as a string, so the
      same booking spelled with other letter case is not recognised. */
  function SameAuthorAsWritten(bookingId: string, clientId: string): Review -> bool {
    (r: Review) => r.bookingId == bookingId && r.clientId == clientId
  }

  /** The duplicate test as intended: the same booking, as an object id, and the same client. */
  function SameAuthor(bookingId: string, clientId: string): Review -> bool {
    (r: Review) => CanonicalId(r.bookingId) == CanonicalId(bookingId) && r.clientId == clientId
  }

  function NewReview(id: string, body: ReviewCreate, now: int): Review {
    Review(id, body.clientId, body.artisanId, body.bookingId, body.rating, body.comment, now, now)
  }

  /** `create_review` with a given duplicate test: the booking id must be an object id, a
      completed booking between the two parties must exist and no review of the client may
      match; the review is then inserted and the artisan's summary refreshed. */
  function CreateWith(db: ReviewDb, bookings: seq<Booking>, body: ReviewCreate, freshId: string, now: int,
                      average: seq<int> -> Value, same: Review -> bool): (CreateAnswer, ReviewDb) {
    if !IsObjectId(body.bookingId) then (MalformedBookingId, db)
    else if CompletedBookingFor(bookings, body).None? then (NoCompletedBooking, db)
    else if IndexWhere(db.reviews, same).Some? then (AlreadyReviewed, db)
    else
      var review := NewReview(freshId, body, now);
      var reviews := db.reviews + [review];
      (Created(review), ReviewDb(reviews, RefreshRating(db.users, reviews, body.artisanId, average)))
  }

  function CreateOutcomeAsWritten(db: ReviewDb, bookings: seq<Booking>, body: ReviewCreate, freshId: string, now: int, average: seq<int> -> Value): (CreateAnswer, ReviewDb) {
    CreateWith(db, bookings, body, freshId, now, average, SameAuthorAsWritten(body.bookingId, body.clientId))
  }

  function CreateOutcome(db: ReviewDb, bookings: seq<Booking>, body: ReviewCreate, freshId: string, now: int, average: seq<int> -> Value): (r: (CreateAnswer, ReviewDb))
    ensures r.0.Created? ==> r.1.reviews == db.reviews + [r.0.review] && r.0.review.id == freshId
    ensures !r.0.Created? ==> r.1 == db
  {
    CreateWith(db, bookings, body, freshId, now, average, SameAuthor(body.bookingId, body.clientId))
  }

  /** At most one review per booking and client. */
  predicate OneReviewPerBooking(reviews: seq<Review>) {
    forall i, j | 0 <= i < j < |reviews| ::
      !(CanonicalId(reviews[i].bookingId) == CanonicalId(reviews[j].bookingId) && reviews[i].clientId == reviews[j].clientId)
  }

  /** A review is created exactly when the booking is completed between the two parties and the
      client has not reviewed it; then it is the one new review, and one review per booking
      and client still holds. */
  lemma CreateOutcomeSpec(db: ReviewDb, bookings: seq<Booking>, body: ReviewCreate, freshId: string, now: int, average: seq<int> -> Value)
    requires OneReviewPerBooking(db.reviews)
    ensures var (answer, after) := CreateOutcome(db, bookings, body, freshId, now, average);
      && (answer.Created? <==>
            && IsObjectId(body.bookingId)
            && CompletedBookingFor(bookings, body).Some?
            && forall i | 0 <= i < |db.reviews| ::
                 !(CanonicalId(db.reviews[i].bookingId) == CanonicalId(body.bookingId) && db.reviews[i].clientId == body.clientId))
      && (!answer.Created? ==> after == db)
      && (answer.Created? ==>
            && answer.review == NewReview(freshId, body, now)
            && after.reviews == db.reviews + [answer.review]
            && after.users == RefreshRating(db.users, after.reviews, body.artisanId, average))
      && OneReviewPerBooking(after.reviews)
  {
  }

  /** Two spellings of one object id. */
  lemma CaseVariantIds()
    ensures IsObjectId("AAAAAAAAAAAAAAAAAAAAAAAA")
    ensures CanonicalId("AAAAAAAAAAAAAAAAAAAAAAAA") == "aaaaaaaaaaaaaaaaaaaaaaaa"
    ensures CanonicalId("aaaaaaaaaaaaaaaaaaaaaaaa") == "aaaaaaaaaaaaaaaaaaaaaaaa"
  {
    var upper := "AAAAAAAAAAAAAAAAAAAAAAAA";
    var lower := "aaaaaaaaaaaaaaaaaaaaaaaa";
    assert forall i | 0 <= i < 24 :: upper[i] == 'A' && lower[i] == 'a';
  }

  /** As written, a client who reviewed a booking stored under its canonical id reviews it
      again by sending another spelling of the id. */
  lemma ReviewTwiceThroughSpelling(lower: string, upper: string, average: seq<int> -> Value)
    requires IsObjectId(upper) && CanonicalId(upper) == lower && CanonicalId(lower) == lower && upper != lower
    ensures var booking := Booking(lower, "c", "x", 0, "d", false, None, Completed, 0, 0);
      var first := Review("000000000000000000000001", "c", "x", lower, 5, "ok", 0, 0);
      var body := ReviewCreate("c", "x", upper, 1, "again");
      var (answer, after) := CreateOutcomeAsWritten(ReviewDb([first], []), [booking], body, "000000000000000000000002", 1, average);
      && answer.Created?
      && !OneReviewPerBooking(after.reviews)
      && CreateOutcome(ReviewDb([first], []), [booking], body, "000000000000000000000002", 1, average).0 == AlreadyReviewed
  {
    var booking := Booking(lower, "c", "x", 0, "d", false, None, Completed, 0, 0);
    var first := Review("000000000000000000000001", "c", "x", lower, 5, "ok", 0, 0);
    var body := ReviewCreate("c", "x", upper, 1, "again");
    IndexWhereAt([booking], (b: Booking) =>
      b.id == CanonicalId(body.bookingId) && b.clientId == body.clientId && b.artisanId == body.artisanId && b.status == Completed, 0);
    assert !SameAuthorAsWritten(upper, "c")(first);
    IndexWhereAt([first], SameAuthor(upper, "c"), 0);
    var (answer, after) := CreateOutcomeAsWritten(ReviewDb([first], []), [booking], body, "000000000000000000000002", 1, average);
    assert answer.Created?;
    assert after.reviews == [first, NewReview("000000000000000000000002", body, 1)];
    assert CanonicalId(after.reviews[0].bookingId) == CanonicalId(after.reviews[1].bookingId);
  }

  /** The concrete case: the booking stored as 24 `a`s, sent again as 24 `A`s. */
  lemma SecondReviewThroughLetterCase(average: seq<int> -> Value)
    ensures var lower := "aaaaaaaaaaaaaaaaaaaaaaaa";
      var upper := "AAAAAAAAAAAAAAAAAAAAAAAA";
      var booking := Booking(lower, "c", "x", 0, "d", false, None, Completed, 0, 0);
      var first := Review("000000000000000000000001", "c", "x", lower, 5, "ok", 0, 0);
      var body := ReviewCreate("c", "x", upper, 1, "again");
      CreateOutcomeAsWritten(ReviewDb([first], []), [booking], body, "000000000000000000000002", 1, average).0.Created?
      && CreateOutcome(ReviewDb([first], []), [booking], body, "000000000000000000000002", 1, average).0 == AlreadyReviewed
  {
    CaseVariantIds();
    ReviewTwiceThroughSpelling("aaaaaaaaaaaaaaaaaaaaaaaa", "AAAAAAAAAAAAAAAAAAAAAAAA", average);
  }

  // ---------------------------------------------------------------------------------------------
  // Update and deletion

  /** The review after `$set` with the sent fields and `updated_at = now`. */
  function ApplyReviewUpdate(r: Review, u: ReviewUpdate, now: int): (s: Review)
    ensures s.id == r.id && s.clientId == r.clientId && s.artisanId == r.artisanId && s.bookingId == r.bookingId
    ensures s.createdAt == r.createdAt && s.updatedAt == now
    ensures s.rating == (if u.rating.Some? then u.rating.value else r.rating)
    ensures s.comment == (if u.comment.Some? then u.comment.value else r.comment)
  {
    r.(rating := u.rating.GetOr(r.rating), comment := u.comment.GetOr(r.comment), updatedAt := now)
  }

  /** `update_review`: a malformed id, a missing review or a `$set` that changes nothing is
      answered None; otherwise the review is replaced and read back, and the artisan's
      summary is refreshed when a rating was sent. */
  function UpdateReviewOutcome(db: ReviewDb, reviewId: string, u: ReviewUpdate, now: int, average: seq<int> -> Value): (Option<Review>, ReviewDb) {
    if !IsObjectId(reviewId) then (None, db)
    else
      var i := IndexWhere(db.reviews, (r: Review) => r.id == CanonicalId(reviewId));
      if i.None? then (None, db)
      else
        var updated := ApplyReviewUpdate(db.reviews[i.value], u, now);
        if updated == db.reviews[i.value] then (None, db)
        else
          var reviews := db.reviews[i.value := updated];
          var users := if u.rating.Some? then RefreshRating(db.users, reviews, updated.artisanId, average) else db.users;
          (FindReviewById(reviews, reviewId), ReviewDb(reviews, users))
  }

  /** A successful update answers the found review with the sent fields applied; the accounts
      are touched only when a rating was sent; one review per booking and client survives. */
  lemma UpdateReviewOutcomeSpec(db: ReviewDb, reviewId: string, u: ReviewUpdate, now: int, average: seq<int> -> Value)
    requires OneReviewPerBooking(db.reviews)
    ensures var (answer, after) := UpdateReviewOutcome(db, reviewId, u, now, average);
      var found := FindReviewById(db.reviews, reviewId);
      && (answer.None? ==> after == db)
      && (answer.Some? ==>
            && found.Some?
            && answer.value == ApplyReviewUpdate(found.value, u, now)
            && answer.value != found.value
            && FindReviewById(after.reviews, reviewId) == answer
            && |after.reviews| == |db.reviews|
            && ReplacedInPlace(db.reviews, found.value, after.reviews, answer.value)
            && (u.rating.None? ==> after.users == db.users)
            && (u.rating.Some? ==> after.users == RefreshRating(db.users, after.reviews, found.value.artisanId, average)))
      && (found.Some? && ApplyReviewUpdate(found.value, u, now) != found.value ==> answer.Some?)
      && OneReviewPerBooking(after.reviews)
  {
    if IsObjectId(reviewId) {
      var key := CanonicalId(reviewId);
      var i := IndexWhere(db.reviews, (r: Review) => r.id == key);
      if i.Some? {
        var reviews := db.reviews[i.value := ApplyReviewUpdate(db.reviews[i.value], u, now)];
        assert reviews[i.value].id == key;
        assert db.reviews[i.value] == FindReviewById(db.reviews, reviewId).value;
        assert forall k | 0 <= k < i.value :: reviews[k] == db.reviews[k];
        IndexWhereAt(reviews, (r: Review) => r.id == key, i.value);
        assert forall k | 0 <= k < |reviews| ::
          reviews[k].bookingId == db.reviews[k].bookingId && reviews[k].clientId == db.reviews[k].clientId;
      }
    }
  }

  /** `delete_review`: the review is read first, then deleted; the answer is true, and the
      artisan's summary is refreshed, only when a document was deleted and the review had been
      found. A malformed id raises and is answered false. */
  function DeleteReviewOutcome(db: ReviewDb, reviewId: string, average: seq<int> -> Value): (bool, ReviewDb) {
    if !IsObjectId(reviewId) then (false, db)
    else
      var i := IndexWhere(db.reviews, (r: Review) => r.id == CanonicalId(reviewId));
      if i.None? then (false, db)
      else
        var reviews := RemoveAt(db.reviews, i.value);
        (true, ReviewDb(reviews, RefreshRating(db.users, reviews, db.reviews[i.value].artisanId, average)))
  }

  /** Deletion answers true exactly when the review existed, and then removes that one review;
      one review per booking and client survives. */
  lemma DeleteReviewOutcomeSpec(db: ReviewDb, reviewId: string, average: seq<int> -> Value)
    requires OneReviewPerBooking(db.reviews)
    ensures var (deleted, after) := DeleteReviewOutcome(db, reviewId, average);
      var found := FindReviewById(db.reviews, reviewId);
      && (deleted <==> found.Some?)
      && (!deleted ==> after == db)
      && (deleted ==>
            && |after.reviews| == |db.reviews| - 1
            && multiset(after.reviews) + multiset{found.value} == multiset(db.reviews)
            && RemovedInPlace(db.reviews, found.value, after.reviews)
            && after.users == RefreshRating(db.users, after.reviews, found.value.artisanId, average))
      && OneReviewPerBooking(after.reviews)
  {
    var (deleted, after) := DeleteReviewOutcome(db, reviewId, average);
    if deleted {
      var i := IndexWhere(db.reviews, (r: Review) => r.id == CanonicalId(reviewId)).value;
      RemoveAtMultiset(db.reviews, i);
      OneReviewPerBookingRemoveAt(db.reviews, i);
      assert after.reviews == db.reviews[..i] + db.reviews[i + 1..];
    }
  }

  lemma OneReviewPerBookingRemoveAt(reviews: seq<Review>, i: nat)
    requires i < |reviews| && OneReviewPerBooking(reviews)
    ensures OneReviewPerBooking(RemoveAt(reviews, i))
  {
    var r := RemoveAt(reviews, i);
    forall a, b | 0 <= a < b < |r|
      ensures !(CanonicalId(r[a].bookingId) == CanonicalId(r[b].bookingId) && r[a].clientId == r[b].clientId)
    {
      var a', b' := if a < i then a else a + 1, if b < i then b else b + 1;
      assert r[a] == reviews[a'] && r[b] == reviews[b'] && a' < b';
    }
  }

  // ---------------------------------------------------------------------------------------------
  // Rating statistics

  const STARS: set<int> := {1, 2, 3, 4, 5}

  function NoStars(): map<int, nat> {
    map[1 := 0, 2 := 0, 3 := 0, 4 := 0, 5 := 0]
  }

  /** The distribution the loop of `get_artisan_rating_stats` builds: one counter per star
      from 1 to 5, raised for each rating in that range. */
  function Tally(ratings: seq<int>): (d: map<int, nat>)
    ensures d.Keys == STARS
    ensures forall k :: k in d <==> 1 <= k <= 5
    decreases |ratings|
  {
    if ratings == [] then NoStars()
    else
      var d := Tally(ratings[..|ratings| - 1]);
      var x := ratings[|ratings| - 1];
      if 1 <= x <= 5 then d[x := d[x] + 1] else d
  }

  function IsRating(k: int): int -> bool {
    (x: int) => x == k
  }

  function Unstarred(): int -> bool {
    (x: int) => !(1 <= x <= 5)
  }

  /** Each counter counts the ratings equal to its star; together they miss exactly the ratings
      outside 1..5, so they never add up to more than the number of reviews. */
  lemma {:induction false} TallyCounts(ratings: seq<int>)
    ensures forall k | 1 <= k <= 5 :: Tally(ratings)[k] == Count(ratings, IsRating(k))
    ensures var d := Tally(ratings);
      d[1] + d[2] + d[3] + d[4] + d[5] + Count(ratings, Unstarred()) == |ratings|
    decreases |ratings|
  {
    if ratings != [] {
      var init := ratings[..|ratings| - 1];
      var x := ratings[|ratings| - 1];
      TallyCounts(init);
      TallyStep(ratings);
      forall k | 1 <= k <= 5 ensures Tally(ratings)[k] == Count(ratings, IsRating(k)) {
        assert Count(ratings, IsRating(k)) == Count(init, IsRating(k)) + (if x == k then 1 else 0);
      }
      assert Count(ratings, Unstarred()) == Count(init, Unstarred()) + (if 1 <= x <= 5 then 0 else 1);
    }
  }

  /** The last rating raises its own counter and no other. */
  lemma TallyStep(ratings: seq<int>)
    requires ratings != []
    ensures var d, d0, x := Tally(ratings), Tally(ratings[..|ratings| - 1]), ratings[|ratings| - 1];
      && (forall k | 1 <= k <= 5 :: d[k] == d0[k] + (if x == k then 1 else 0))
      && d[1] + d[2] + d[3] + d[4] + d[5] == d0[1] + d0[2] + d0[3] + d0[4] + d0[5] + (if 1 <= x <= 5 then 1 else 0)
  {
  }

  datatype RatingStats = RatingStats(artisanId: string, averageRating: Value, reviewCount: nat, distribution: map<int, nat>)

  /** What `get_artisan_rating_stats` answers: for an artisan with reviews, the average, the
      count and the distribution of their ratings; for one without, zeros. */
  function StatsOf(reviews: seq<Review>, artisanId: string, average: seq<int> -> Value): RatingStats {
    var ratings := RatingsOf(reviews, artisanId);
    if ratings == [] then RatingStats(artisanId, Int(0), 0, NoStars())
    else RatingStats(artisanId, average(ratings), |ratings|, Tally(ratings))
  }

  /** The count is the number of the artisan's reviews, the distribution has the five stars and
      sums to at most the count; an artisan without reviews gets zeros throughout. */
  lemma StatsOfSpec(reviews: seq<Review>, artisanId: string, average: seq<int> -> Value)
    ensures var s := StatsOf(reviews, artisanId, average);
      && s.reviewCount == Count(reviews, ByArtisan(artisanId))
      && s.distribution.Keys == {1, 2, 3, 4, 5}
      && s.distribution[1] + s.distribution[2] + s.distribution[3] + s.distribution[4] + s.distribution[5] <= s.reviewCount
      && (forall k | k in STARS :: s.distribution[k] == Count(RatingsOf(reviews, artisanId), IsRating(k)))
      && (s.reviewCount == 0 ==> s.averageRating == Int(0) && forall k | k in STARS :: s.distribution[k] == 0)
  {
    RatingsOfSpec(reviews, artisanId);
    TallyCounts(RatingsOf(reviews, artisanId));
    TallyCounts([]);
  }

  // ---------------------------------------------------------------------------------------------
  // Listing with details

  datatype DetailedReview = DetailedReview(review: Review, client: Option<User>, artisan: Option<User>, booking: Option<Booking>)

  function NewestFirst(): Review -> int {
    (r: Review) => -r.createdAt
  }

  function DetailsCursor(reviews: seq<Review>, selected: Review -> bool, skip: nat, limit: nat): seq<Review> {
    Page(SortBy(Filter(reviews, selected), NewestFirst()), skip, limit)
  }

  /** `get_reviews_with_details`: each review of the cursor with its client, artisan and
      booking attached. A client, artisan or booking id that is not an object id makes
      `ObjectId` raise, and the whole listing is then answered with the empty list. */
  function ReviewsWithDetails(reviews: seq<Review>, users: seq<User>, bookings: seq<Booking>, selected: Review -> bool, skip: nat, limit: nat): (r: seq<DetailedReview>)
    ensures var cursor := DetailsCursor(reviews, selected, skip, limit);
      && (r == [] || |r| == |cursor|)
      && (|r| == |cursor| ==> forall i | 0 <= i < |r| :: r[i].review == cursor[i])
      && (forall i | 0 <= i < |r| ::
            && r[i].client == FindUserById(users, r[i].review.clientId)
            && r[i].artisan == FindUserById(users, r[i].review.artisanId)
            && r[i].booking == FindBookingById(bookings, r[i].review.bookingId))
      && ((exists i | 0 <= i < |cursor| :: !IsObjectId(cursor[i].clientId) || !IsObjectId(cursor[i].artisanId) || !IsObjectId(cursor[i].bookingId)) ==> r == [])
      && ((forall i | 0 <= i < |cursor| :: IsObjectId(cursor[i].clientId) && IsObjectId(cursor[i].artisanId) && IsObjectId(cursor[i].bookingId)) ==> |r| == |cursor|)
  {
    var cursor := DetailsCursor(reviews, selected, skip, limit);
    if exists i | 0 <= i < |cursor| :: !IsObjectId(cursor[i].clientId) || !IsObjectId(cursor[i].artisanId) || !IsObjectId(cursor[i].bookingId) then []
    else
      seq(|cursor|, i requires 0 <= i < |cursor| =>
        DetailedReview(cursor[i], FindUserById(users, cursor[i].clientId), FindUserById(users, cursor[i].artisanId),
                       FindBookingById(bookings, cursor[i].bookingId)))
  }

  /** Every listed review is a selected one, and the listing is newest first. */
  lemma DetailsSelectedNewestFirst(reviews: seq<Review>, users: seq<User>, bookings: seq<Booking>, selected: Review -> bool, skip: nat, limit: nat)
    ensures var r := ReviewsWithDetails(reviews, users, bookings, selected, skip, limit);
      && (forall i | 0 <= i < |r| :: selected(r[i].review) && r[i].review in reviews)
      && (forall i, j | 0 <= i < j < |r| :: r[i].review.createdAt >= r[j].review.createdAt)
  {
    PageOfSortedSelection(reviews, selected, NewestFirst(), skip, limit);
    var cursor := DetailsCursor(reviews, selected, skip, limit);
    assert forall i, j | 0 <= i < j < |cursor| :: -cursor[i].createdAt <= -cursor[j].createdAt;
  }

  // ---------------------------------------------------------------------------------------------
  // The manager

  class ReviewStore {
    var reviews: seq<Review>
    var users: seq<User>

    function State(): ReviewDb
      reads this
    {
      ReviewDb(reviews, users)
    }

    constructor(initialUsers: seq<User>)
      ensures reviews == [] && users == initialUsers
    {
      reviews := [];
      users := initialUsers;
    }

    method CreateReview(bookings: seq<Booking>, body: ReviewCreate, freshId: string, now: int, average: seq<int> -> Value) returns (answer: CreateAnswer)
      modifies this
      ensures (answer, State()) == CreateOutcome(old(State()), bookings, body, freshId, now, average)
    {
      if !IsObjectId(body.bookingId) {
        return MalformedBookingId;
      }
      var booking := CompletedBookingFor(bookings, body);
      if booking.None? {
        return NoCompletedBooking;
      }
      var existing := IndexWhere(reviews, SameAuthor(body.bookingId, body.clientId));
      if existing.Some? {
        return AlreadyReviewed;
      }
      var review := NewReview(freshId, body, now);
      reviews := reviews + [review];
      users := RefreshRating(users, reviews, body.artisanId, average);
      answer := Created(review);
    }

    method UpdateReview(reviewId: string, u: ReviewUpdate, now: int, average: seq<int> -> Value) returns (updated: Option<Review>)
      modifies this
      ensures (updated, State()) == UpdateReviewOutcome(old(State()), reviewId, u, now, average)
    {
      if !IsObjectId(reviewId) {
        return None;
      }
      var i := IndexWhere(reviews, (r: Review) => r.id == CanonicalId(reviewId));
      if i.None? {
        return None;
      }
      var next := ApplyReviewUpdate(reviews[i.value], u, now);
      if next == reviews[i.value] {
        return None;
      }
      reviews := reviews[i.value := next];
      updated := FindReviewById(reviews, reviewId);
      if u.rating.Some? {
        users := RefreshRating(users, reviews, next.artisanId, average);
      }
    }

    method DeleteReview(reviewId: string, average: seq<int> -> Value) returns (deleted: bool)
      modifies this
      ensures (deleted, State()) == DeleteReviewOutcome(old(State()), reviewId, average)
    {
      if !IsObjectId(reviewId) {
        return false;
      }
      var i := IndexWhere(reviews, (r: Review) => r.id == CanonicalId(reviewId));
      if i.None? {
        return false;
      }
      var artisanId := reviews[i.value].artisanId;
      reviews := RemoveAt(reviews, i.value);
      users := RefreshRating(users, reviews, artisanId, average);
      deleted := true;
    }

    /** `get_artisan_rating_stats`, with its counting loop over the ratings. */
    method GetArtisanRatingStats(artisanId: string, average: seq<int> -> Value) returns (stats: RatingStats)
      ensures stats == StatsOf(reviews, artisanId, average)
    {
      var ratings := RatingsOf(reviews, artisanId);
      if ratings == [] {
        return RatingStats(artisanId, Int(0), 0, NoStars());
      }
      var distribution := CountStars(ratings);
      stats := RatingStats(artisanId, average(ratings), |ratings|, distribution);
    }
  }

  /** The counting loop of `get_artisan_rating_stats`: one counter per star, raised for each
      rating from 1 to 5. */
  method CountStars(ratings: seq<int>) returns (distribution: map<int, nat>)
    ensures distribution == Tally(ratings)
  {
    distribution := NoStars();
    var i := 0;
    while i < |ratings|
      invariant 0 <= i <= |ratings|
      invariant distribution == Tally(ratings[..i])
    {
      assert ratings[..i + 1][..i] == ratings[..i];
      var rating := ratings[i];
      if 1 <= rating <= 5 {
        distribution := distribution[rating := distribution[rating] + 1];
      }
      i := i + 1;
    }
    assert ratings[..i] == ratings;
  }
}
