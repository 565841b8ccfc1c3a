/** Review request shapes (app/schemas/review_schemas.py): the 0..5 rating range and the
    non-blank comment, on creation and on update. */
module ReviewSchemas {
  import opened Common

  predicate RatingInRange(rating: int) {
    0 <= rating <= 5
  }

  datatype ReviewCreate = ReviewCreate(
    clientId: string,
    artisanId: string,
    bookingId: string,
    rating: int,
    comment: string)

  /** `ReviewCreate`: a rating from 0 to 5 stars and a comment that is not blank. */
  function ValidateReviewCreate(body: ReviewCreate): (r: Outcome<ReviewCreate>)
    ensures r.Ok? <==>
      && 0 <= body.rating <= 5
      && exists i | 0 <= i < |body.comment| :: !IsSpace(body.comment[i])
    ensures r.Ok? ==> r.value == body
    ensures r.Fail? ==> r.code == UNPROCESSABLE
  {
    if RatingInRange(body.rating) && NonBlank(body.comment) then Ok(body) else Fail(UNPROCESSABLE)
  }

  /** The fields of a review update; each is None when it was not sent. */
  datatype ReviewUpdate = ReviewUpdate(rating: Option<int>, comment: Option<string>) {
    predicate IsEmpty() {
      rating.None? && comment.None?
    }
  }

  /** `ReviewUpdate`: an absent field passes; a given rating must be in range and a given
      comment must not be blank. */
  function ValidateReviewUpdate(body: ReviewUpdate): (r: Outcome<ReviewUpdate>)
    ensures r.Ok? <==>
      && (body.rating.None? || 0 <= body.rating.value <= 5)
      && (body.comment.None? || exists i | 0 <= i < |body.comment.value| :: !IsSpace(body.comment.value[i]))
    ensures r.Ok? ==> r.value == body
    ensures r.Fail? ==> r.code == UNPROCESSABLE
  {
    var ratingOk := body.rating.None? || RatingInRange(body.rating.value);
    var commentOk := body.comment.None? || NonBlank(body.comment.value);
    if ratingOk && commentOk then Ok(body) else Fail(UNPROCESSABLE)
  }
}
