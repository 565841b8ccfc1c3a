/** The review routes (app/api/v1/endpoints/reviews.py) as guard chains over the review store.
    Each route takes the store as it is and the caller (the account the token names); the
    routes that change the store answer an outcome together with the store after the request.
    Request bodies and query parameters are validated by the framework before a route runs, so
    their 422 comes first. */
module ReviewEndpoints {
  import opened Common
  import opened BookingSchemas
  import opened ReviewSchemas
  import opened UserModels
  import opened BookingModels
  import opened ReviewModels

  // ---------------------------------------------------------------------------------------------
  // POST /reviews/

  /** `create_review`: 403 unless the caller is a client filing for themselves; 404 when the
      booking is not found; 400 when it is not completed; 403 when it is another client's; 400
      when it names another artisan; then the store's answer, its refusals being `ValueError`
      (400) except a malformed booking id (500). */
  function CreateReview(db: ReviewDb, bookings: seq<Booking>, caller: User, body: ReviewCreate, freshId: string, now: int, average: seq<int> -> Value): (r: (Outcome<Review>, ReviewDb))
    ensures r.0.Fail? ==> r.1 == db && r.0.code in {400, 403, 404, 422, 500}
    ensures r.0.Ok? ==> caller.UserType() == "client" && body.clientId == caller.id
  {
    var request := ValidateReviewCreate(body);
    if request.Fail? then (Fail(request.code), db)
    else if caller.UserType() != CLIENT then (Fail(FORBIDDEN), db)
    else if body.clientId != caller.id then (Fail(FORBIDDEN), db)
    else
      var booking := FindBookingById(bookings, body.bookingId);
      if booking.None? then (Fail(NOT_FOUND), db)
      else if booking.value.status != Completed then (Fail(BAD_REQUEST), db)
      else if booking.value.clientId != body.clientId then (Fail(FORBIDDEN), db)
      else if booking.value.artisanId != body.artisanId then (Fail(BAD_REQUEST), db)
      else
        var (answer, after) := CreateOutcome(db, bookings, body, freshId, now, average);
        match answer
        case Created(review) => (Ok(review), after)
        case MalformedBookingId => (Fail(INTERNAL_ERROR), db)
        case _ => (Fail(BAD_REQUEST), db)
  }

  /** A review is created exactly for a valid body from a client, for themselves, on a
      completed booking of theirs with that artisan that they have not reviewed yet; it is then
      the one new review and one review per booking and client still holds. A refusal changes
      nothing, and a second review of the same booking is a 400. */
  lemma CreateReviewRule(db: ReviewDb, bookings: seq<Booking>, caller: User, body: ReviewCreate, freshId: string, now: int, average: seq<int> -> Value)
    requires OneReviewPerBooking(db.reviews)
    ensures var (out, after) := CreateReview(db, bookings, caller, body, freshId, now, average);
      var booking := FindBookingById(bookings, body.bookingId);
      var reviewed := exists i | 0 <= i < |db.reviews| ::
        CanonicalId(db.reviews[i].bookingId) == CanonicalId(body.bookingId) && db.reviews[i].clientId == body.clientId;
      var filer := ValidateReviewCreate(body).Ok? && caller.UserType() == "client" && body.clientId == caller.id;
      && (ValidateReviewCreate(body).Fail? ==> out == Fail(422))
      && (ValidateReviewCreate(body).Ok? && !(caller.UserType() == "client" && body.clientId == caller.id) ==> out == Fail(403))
      && (filer && booking.None? ==> out == Fail(404))
      && (filer && booking.Some? && booking.value.status != Completed ==> out == Fail(400))
      && (filer && booking.Some? && booking.value.status == Completed && booking.value.clientId != body.clientId ==> out == Fail(403))
      && (var sameClient := booking.Some? && booking.value.status == Completed && booking.value.clientId == body.clientId;
          filer && sameClient && booking.value.artisanId != body.artisanId ==> out == Fail(400))
      && (out.Ok? <==>
            && ValidateReviewCreate(body).Ok?
            && caller.UserType() == "client" && body.clientId == caller.id
            && booking.Some? && booking.value.status == Completed
            && booking.value.clientId == body.clientId && booking.value.artisanId == body.artisanId
            && !reviewed)
      && (out.Fail? ==> after == db && out.code in {400, 403, 404, 422})
      && (out.Ok? ==>
            && out.value == NewReview(freshId, body, now)
            && after.reviews == db.reviews + [out.value]
            && after.users == RefreshRating(db.users, after.reviews, body.artisanId, average))
      && OneReviewPerBooking(after.reviews)
      && ((ValidateReviewCreate(body).Ok? && caller.UserType() == "client" && body.clientId == caller.id
           && booking.Some? && booking.value.status == Completed
           && booking.value.clientId == body.clientId && booking.value.artisanId == body.artisanId
           && reviewed) ==> out == Fail(400))
  {
    var booking := FindBookingById(bookings, body.bookingId);
    if && ValidateReviewCreate(body).Ok? && caller.UserType() == CLIENT && body.clientId == caller.id
       && booking.Some? && booking.value.status == Completed
       && booking.value.clientId == body.clientId && booking.value.artisanId == body.artisanId
    {
      assert IsObjectId(body.bookingId);
      assert CompletedBookingFor(bookings, body).Some?;
      CreateOutcomeSpec(db, bookings, body, freshId, now, average);
    }
  }

  // ---------------------------------------------------------------------------------------------
  // Listing queries

  /** Whether a stored review matches a query document of the shapes these routes build:
      equality on `_id`, `artisan_id` and `client_id`, and a `$gte`/`$lte` range on
      `rating`. */
  function Matches(query: Doc): Review -> bool {
    (r: Review) =>
      && ("_id" in query ==> query["_id"] == Str(r.id))
      && ("artisan_id" in query ==> query["artisan_id"] == Str(r.artisanId))
      && ("client_id" in query ==> query["client_id"] == Str(r.clientId))
      && ("rating" in query ==> WithinRange(query["rating"], r.rating))
  }

  predicate WithinRange(range: Value, rating: int) {
    && range.Dict?
    && ("$gte" in range.fields ==> range.fields["$gte"].Int? && rating >= range.fields["$gte"].i)
    && ("$lte" in range.fields ==> range.fields["$lte"].Int? && rating <= range.fields["$lte"].i)
  }

  /** The reviews `get_artisan_reviews` asks for: the artisan's, with a rating within the
      bounds that are given. */
  function ArtisanRated(artisanId: string, minRating: Option<int>, maxRating: Option<int>): Review -> bool {
    (r: Review) =>
      && r.artisanId == artisanId
      && (minRating.Some? ==> r.rating >= minRating.value)
      && (maxRating.Some? ==> r.rating <= maxRating.value)
  }

  /** The query of `get_artisan_reviews`, built key by key: the artisan, and a `rating` range
      present exactly when a bound is given, holding `$gte` for the minimum and `$lte` for the
      maximum. */
  method ArtisanReviewsQuery(artisanId: string, minRating: Option<int>, maxRating: Option<int>) returns (query: Doc)
    ensures query.Keys <= {"artisan_id", "rating"}
    ensures "artisan_id" in query && query["artisan_id"] == Str(artisanId)
    ensures "rating" in query <==> minRating.Some? || maxRating.Some?
    ensures "rating" in query ==>
      && query["rating"].Dict?
      && ("$gte" in query["rating"].fields <==> minRating.Some?)
      && ("$lte" in query["rating"].fields <==> maxRating.Some?)
    ensures forall r: Review :: Matches(query)(r) == ArtisanRated(artisanId, minRating, maxRating)(r)
  {
    query := map["artisan_id" := Str(artisanId)];
    if minRating.Some? || maxRating.Some? {
      var range: map<string, Value> := map[];
      if minRating.Some? {
        range := range["$gte" := Int(minRating.value)];
      }
      if maxRating.Some? {
        range := range["$lte" := Int(maxRating.value)];
      }
      query := query["rating" := Dict(range)];
    }
  }

  // ---------------------------------------------------------------------------------------------
  // Listing routes

  predicate PageBounds(skip: int, limit: int) {
    skip >= 0 && 1 <= limit <= 100
  }

  /** The bounds of the `min_rating` and `max_rating` query parameters. */
  predicate RatingBounds(minRating: Option<int>, maxRating: Option<int>) {
    (minRating.None? || 0 <= minRating.value <= 5) && (maxRating.None? || 0 <= maxRating.value <= 5)
  }

  predicate StrOrAbsent(d: Doc, k: string) {
    k !in d || d[k].Str?
  }

  predicate OptionalStr(d: Doc, k: string) {
    k !in d || d[k].Null? || d[k].Str?
  }

  /** `ReviewDetailedResponse(**review)` succeeds: client, artisan and booking were all found,
      the names and the trade are strings or absent, and the picture and company name are
      strings, null or absent. */
  predicate Presentable(d: DetailedReview) {
    && d.client.Some? && d.artisan.Some? && d.booking.Some?
    && StrOrAbsent(d.client.value.doc, "first_name") && StrOrAbsent(d.client.value.doc, "last_name")
    && OptionalStr(d.client.value.doc, "profile_picture")
    && StrOrAbsent(d.artisan.value.doc, "first_name") && StrOrAbsent(d.artisan.value.doc, "last_name")
    && OptionalStr(d.artisan.value.doc, "profile_picture") && OptionalStr(d.artisan.value.doc, "company_name")
    && StrOrAbsent(d.artisan.value.doc, "trade")
  }

  /** The response of a listing route: the listing, or 500 when one entry cannot be
      presented. */
  function Presented(listing: seq<DetailedReview>): (r: Outcome<seq<DetailedReview>>)
    ensures r.Ok? <==> forall i | 0 <= i < |listing| :: Presentable(listing[i])
    ensures r.Ok? ==> r.value == listing
    ensures r.Fail? ==> r.code == INTERNAL_ERROR
  {
    if forall i | 0 <= i < |listing| :: Presentable(listing[i]) then Ok(listing) else Fail(INTERNAL_ERROR)
  }

  /** `get_artisan_reviews`, public: the artisan's reviews with a rating within the given bounds,
      newest first and at most `limit` of them, each presentable. */
  method GetArtisanReviews(reviews: seq<Review>, users: seq<User>, bookings: seq<Booking>, artisanId: string,
                           skip: int, limit: int, minRating: Option<int>, maxRating: Option<int>)
    returns (out: Outcome<seq<DetailedReview>>)
    ensures !(PageBounds(skip, limit) && RatingBounds(minRating, maxRating)) ==> out == Fail(UNPROCESSABLE)
    ensures PageBounds(skip, limit) && RatingBounds(minRating, maxRating) ==>
      out == Presented(ReviewsWithDetails(reviews, users, bookings, ArtisanRated(artisanId, minRating, maxRating), skip as nat, limit as nat))
    ensures out.Ok? ==>
      && |out.value| <= limit
      && (forall i | 0 <= i < |out.value| ::
            && out.value[i].review in reviews
            && out.value[i].review.artisanId == artisanId
            && (minRating.Some? ==> out.value[i].review.rating >= minRating.value)
            && (maxRating.Some? ==> out.value[i].review.rating <= maxRating.value)
            && Presentable(out.value[i]))
      && (forall i, j | 0 <= i < j < |out.value| :: out.value[i].review.createdAt >= out.value[j].review.createdAt)
  {
    if !(PageBounds(skip, limit) && RatingBounds(minRating, maxRating)) {
      return Fail(UNPROCESSABLE);
    }
    var query := ArtisanReviewsQuery(artisanId, minRating, maxRating);
    var wanted := ArtisanRated(artisanId, minRating, maxRating);
    FilterAgrees(reviews, Matches(query), wanted);
    ReviewModels.DetailsSelectedNewestFirst(reviews, users, bookings, wanted, skip, limit);
    out := Presented(ReviewsWithDetails(reviews, users, bookings, Matches(query), skip, limit));
  }

  /** The query of `get_my_reviews`: a client's reviews or an artisan's; None for anyone else. */
  function MyReviewsQuery(caller: User): (q: Option<Doc>)
    ensures q.Some? <==> caller.UserType() in {"client", "artisan"}
    ensures q.Some? ==> forall r: Review :: Matches(q.value)(r) <==>
      if caller.UserType() == "client" then r.clientId == caller.id else r.artisanId == caller.id
  {
    if caller.UserType() == CLIENT then Some(map["client_id" := Str(caller.id)])
    else if caller.UserType() == ARTISAN then Some(map["artisan_id" := Str(caller.id)])
    else None
  }

  function GetMyReviews(reviews: seq<Review>, users: seq<User>, bookings: seq<Booking>, caller: User, skip: int, limit: int): Outcome<seq<DetailedReview>> {
    if !PageBounds(skip, limit) then Fail(UNPROCESSABLE)
    else
      var query := MyReviewsQuery(caller);
      if query.None? then Fail(FORBIDDEN)
      else Presented(ReviewsWithDetails(reviews, users, bookings, Matches(query.value), skip, limit))
  }

  /** A client sees the reviews they wrote, an artisan the reviews about them, newest first;
      anyone else is refused with 403. */
  lemma GetMyReviewsRule(reviews: seq<Review>, users: seq<User>, bookings: seq<Booking>, caller: User, skip: int, limit: int)
    ensures var out := GetMyReviews(reviews, users, bookings, caller, skip, limit);
      && (!PageBounds(skip, limit) ==> out == Fail(422))
      && (PageBounds(skip, limit) && caller.UserType() !in {"client", "artisan"} ==> out == Fail(403))
      && (out.Ok? ==>
            && |out.value| <= limit
            && (forall i | 0 <= i < |out.value| ::
                  && out.value[i].review in reviews
                  && (caller.UserType() == "client" ==> out.value[i].review.clientId == caller.id)
                  && (caller.UserType() == "artisan" ==> out.value[i].review.artisanId == caller.id))
            && (forall i, j | 0 <= i < j < |out.value| :: out.value[i].review.createdAt >= out.value[j].review.createdAt))
  {
    if PageBounds(skip, limit) && MyReviewsQuery(caller).Some? {
      ReviewModels.DetailsSelectedNewestFirst(reviews, users, bookings, Matches(MyReviewsQuery(caller).value), skip, limit);
    }
  }

  // ---------------------------------------------------------------------------------------------
  // GET /reviews/{id}

  function IdQuery(reviewId: string): Doc {
    map["_id" := Str(CanonicalId(reviewId))]
  }

  /** `get_review`, public: a malformed id makes `ObjectId` raise outside any handler (500); an
      empty detailed listing is a 404 (this includes a review with a malformed party id); an
      entry that cannot be presented is a 500. */
  function GetReview(reviews: seq<Review>, users: seq<User>, bookings: seq<Booking>, reviewId: string): (r: Outcome<DetailedReview>)
    ensures r.Fail? ==> r.code in {404, 500}
    ensures r.Ok? ==> Presentable(r.value)
  {
    if !IsObjectId(reviewId) then Fail(INTERNAL_ERROR)
    else
      var found := ReviewsWithDetails(reviews, users, bookings, Matches(IdQuery(reviewId)), 0, 1);
      if found == [] then Fail(NOT_FOUND)
      else if !Presentable(found[0]) then Fail(INTERNAL_ERROR)
      else Ok(found[0])
  }

  /** The review shown is the stored review with that id; an id no review has is a 404 and a
      malformed one a 500. */
  lemma GetReviewRule(reviews: seq<Review>, users: seq<User>, bookings: seq<Booking>, reviewId: string)
    ensures var out := GetReview(reviews, users, bookings, reviewId);
      && (!IsObjectId(reviewId) ==> out == Fail(500))
      && (IsObjectId(reviewId) && FindReviewById(reviews, reviewId).None? ==> out == Fail(404))
      && (out.Ok? ==>
            && out.value.review in reviews
            && out.value.review.id == CanonicalId(reviewId)
            && Presentable(out.value))
  {
    if IsObjectId(reviewId) {
      ReviewModels.DetailsSelectedNewestFirst(reviews, users, bookings, Matches(IdQuery(reviewId)), 0, 1);
      if FindReviewById(reviews, reviewId).None? {
        FilterNone(reviews, Matches(IdQuery(reviewId)));
      }
    }
  }

  // ---------------------------------------------------------------------------------------------
  // PUT /reviews/{id}

  /** `update_review`: 404 when the review is not found, 403 when the caller did not write it
      (admins included), 400 when the body sets nothing, 500 when the store reports nothing
      modified. */
  function UpdateReview(db: ReviewDb, caller: User, reviewId: string, body: ReviewUpdate, now: int, average: seq<int> -> Value): (r: (Outcome<Review>, ReviewDb))
    ensures r.0.Fail? ==> r.1 == db && r.0.code in {400, 403, 404, 422, 500}
    ensures r.0.Ok? ==> FindReviewById(db.reviews, reviewId).Some? && FindReviewById(db.reviews, reviewId).value.clientId == caller.id
  {
    var u := ValidateReviewUpdate(body);
    if u.Fail? then (Fail(u.code), db)
    else
      var found := FindReviewById(db.reviews, reviewId);
      if found.None? then (Fail(NOT_FOUND), db)
      else if found.value.clientId != caller.id then (Fail(FORBIDDEN), db)
      else if u.value.IsEmpty() then (Fail(BAD_REQUEST), db)
      else
        var (answer, after) := UpdateReviewOutcome(db, reviewId, u.value, now, average);
        if answer.None? then (Fail(INTERNAL_ERROR), db) else (Ok(answer.value), after)
  }

  /** Only the review's author edits it, and only with a non-empty body; the stored review then
      has the sent fields applied, the artisan's summary is refreshed when a rating was sent,
      and one review per booking and client still holds. The guards apply in the order 404,
      403, 400. */
  lemma UpdateReviewRule(db: ReviewDb, caller: User, reviewId: string, body: ReviewUpdate, now: int, average: seq<int> -> Value)
    requires OneReviewPerBooking(db.reviews)
    ensures var (out, after) := UpdateReview(db, caller, reviewId, body, now, average);
      var found := FindReviewById(db.reviews, reviewId);
      && (out.Fail? ==> after == db)
      && (out.Ok? ==>
            && found.Some?
            && found.value.clientId == caller.id
            && !body.IsEmpty()
            && out.value == ApplyReviewUpdate(found.value, body, now)
            && FindReviewById(after.reviews, reviewId) == Some(out.value)
            && ReplacedInPlace(db.reviews, found.value, after.reviews, out.value)
            && (body.rating.None? ==> after.users == db.users)
            && (body.rating.Some? ==> after.users == RefreshRating(db.users, after.reviews, found.value.artisanId, average)))
      && OneReviewPerBooking(after.reviews)
      && (ValidateReviewUpdate(body).Ok? ==>
            && (found.None? ==> out == Fail(404))
            && (found.Some? && found.value.clientId != caller.id ==> out == Fail(403))
            && (found.Some? && found.value.clientId == caller.id && body.IsEmpty() ==> out == Fail(400))
            && ((found.Some? && found.value.clientId == caller.id && !body.IsEmpty()
                 && ApplyReviewUpdate(found.value, body, now) != found.value) ==> out.Ok?))
  {
    UpdateReviewOutcomeSpec(db, reviewId, body, now, average);
  }

  // ---------------------------------------------------------------------------------------------
  // DELETE /reviews/{id}

  /** Who may delete a review: the client who wrote it, or an admin. */
  predicate MayDelete(r: Review, caller: User) {
    (caller.UserType() == CLIENT && r.clientId == caller.id) || caller.UserType() == ADMIN
  }

  /** `delete_review`: 404 when not found; a client who did not write it, or a caller who is
      neither client nor admin, gets 403; 500 when the store deletes nothing. */
  function DeleteReview(db: ReviewDb, caller: User, reviewId: string, average: seq<int> -> Value): (r: (Outcome<()>, ReviewDb))
    ensures r.0.Fail? ==> r.1 == db && r.0.code in {403, 404, 500}
    ensures r.0.Ok? ==> FindReviewById(db.reviews, reviewId).Some? && MayDelete(FindReviewById(db.reviews, reviewId).value, caller)
  {
    var found := FindReviewById(db.reviews, reviewId);
    if found.None? then (Fail(NOT_FOUND), db)
    else if caller.UserType() == CLIENT && found.value.clientId != caller.id then (Fail(FORBIDDEN), db)
    else if caller.UserType() != CLIENT && caller.UserType() != ADMIN then (Fail(FORBIDDEN), db)
    else
      var (deleted, after) := DeleteReviewOutcome(db, reviewId, average);
      if !deleted then (Fail(INTERNAL_ERROR), db) else (Ok(()), after)
  }

  /** A review is deleted exactly when it exists and the caller wrote it or is an admin; it is
      then the one review removed and the artisan's summary is refreshed. */
  lemma DeleteReviewRule(db: ReviewDb, caller: User, reviewId: string, average: seq<int> -> Value)
    requires OneReviewPerBooking(db.reviews)
    ensures var (out, after) := DeleteReview(db, caller, reviewId, average);
      var found := FindReviewById(db.reviews, reviewId);
      && (out.Ok? <==> found.Some? && MayDelete(found.value, caller))
      && (found.None? ==> out == Fail(404))
      && (found.Some? && !MayDelete(found.value, caller) ==> out == Fail(403))
      && (out.Fail? ==> after == db)
      && (out.Ok? ==>
            && |after.reviews| == |db.reviews| - 1
            && multiset(after.reviews) + multiset{found.value} == multiset(db.reviews)
            && RemovedInPlace(db.reviews, found.value, after.reviews)
            && after.users == RefreshRating(db.users, after.reviews, found.value.artisanId, average))
      && OneReviewPerBooking(after.reviews)
  {
    DeleteReviewOutcomeSpec(db, reviewId, average);
  }
}
