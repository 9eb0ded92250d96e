/**
 * The guest rating modal of the mobile app.
 *
 * The modal holds a star rating (0 for "not rated yet", else 1 to 5) and an
 * optional feedback text. Submitting without a rating is refused with an
 * alert; otherwise the rating and feedback go to the caller's `onSubmit`, and
 * once that resolves the form is reset and the app moves to the report
 * screen. A rejection of `onSubmit` is not caught: the handler stops there.
 * Whether `onSubmit` resolves is the input `accepted`.
 */
module GuestRating {

  const StarCount: int := 5

  /** Star `index` (counted from 0) is drawn filled. */
  predicate StarFilled(index: int, rating: int) {
    index < rating
  }

  /** The submit button's `disabled` prop. */
  predicate SubmitDisabled(isSubmitting: bool, rating: int) {
    isSubmitting || rating == 0
  }

  /** How many of the stars 0 to `k - 1` are drawn filled. */
  function FilledStars(k: nat, rating: int): (n: nat)
    ensures n <= k
  {
    if k == 0 then 0 else FilledStars(k - 1, rating) + if StarFilled(k - 1, rating) then 1 else 0
  }

  /** What `onSubmit` receives. */
  datatype Submission = Submission(rating: int, feedback: string)

  /** How a press of the submit button ends. */
  datatype SubmitOutcome =
    | RatingRequired            // alert shown, `onSubmit` not called
    | Rejected(sent: Submission)  // `onSubmit` rejected; the error propagates
    | Submitted(sent: Submission) // `onSubmit` resolved; form reset, report screen shown

  class RatingForm {
    var rating: int
    var feedback: string

    ghost predicate Valid()
      reads this
    {
      0 <= rating <= StarCount
    }

    constructor ()
      ensures Valid() && rating == 0 && feedback == ""
    {
      rating := 0;
      feedback := "";
    }

    /** `handleStarPress(index)`, called by the five stars with index 0 to 4. */
    method PressStar(index: int)
      requires 0 <= index < StarCount
      modifies this`rating
      ensures Valid() && 1 <= rating
      ensures rating == index + 1
      ensures FilledStars(StarCount, rating) == index + 1
    {
      rating := index + 1;
      FilledStarsShowRating(StarCount, rating);
    }

    /** The feedback text input's `onChangeText`. */
    method EditFeedback(text: string)
      requires Valid()
      modifies this`feedback
      ensures Valid()
      ensures feedback == text
    {
      feedback := text;
    }

    method HandleSubmit(accepted: bool) returns (outcome: SubmitOutcome)
      requires Valid()
      modifies this
      ensures Valid()
      ensures outcome == RatingRequired <==> SubmitDisabled(false, old(rating))
      ensures old(rating) == 0 ==> outcome == RatingRequired && rating == 0 && feedback == old(feedback)
      ensures old(rating) != 0 && accepted ==>
        outcome == Submitted(Submission(old(rating), old(feedback))) && rating == 0 && feedback == ""
      ensures old(rating) != 0 && !accepted ==>
        outcome == Rejected(Submission(old(rating), old(feedback)))
        && rating == old(rating) && feedback == old(feedback)
    {
      if rating == 0 {
        return RatingRequired;
      }
      var sent := Submission(rating, feedback);
      if !accepted {
        return Rejected(sent);
      }
      rating := 0;
      feedback := "";
      outcome := Submitted(sent);
    }
  }

  // ---------------------------------------------------------------------

  /** The number of filled stars among the five is the rating, for every rating from 0 to 5. */
  lemma {:induction false} FilledStarsShowRating(k: nat, rating: int)
    requires 0 <= rating
    ensures FilledStars(k, rating) == if rating < k then rating else k
  {
    if k > 0 {
      FilledStarsShowRating(k - 1, rating);
    }
  }
}
