/**
 * The review dialog of `components/RatingModal.tsx`: five star buttons
 * that choose (click) or preview (hover) a rating, an optional comment,
 * and a submit button that hands the rating and the comment to the page
 * one second later.
 */
module RatingModal {
  import opened Types
  import StarRating

  /** The star buttons are `[1, 2, 3, 4, 5]`. */
  const StarButtons: nat := 5

  /** What `onSubmit` receives. */
  datatype Submission = Submission(rating: int, comment: string)

  /** `hoverRating || rating`: a zero hover rating shows the chosen one. */
  function Shown(hover: int, rating: int): int {
    if hover != 0 then hover else rating
  }

  /** Star `star` is drawn yellow. */
  predicate Highlighted(hover: int, rating: int, star: int) {
    Shown(hover, rating) >= star
  }

  /** The five stars' highlight flags, star 1 first. */
  function Highlights(hover: int, rating: int): (r: seq<bool>)
    ensures |r| == StarButtons
    ensures forall k :: 0 <= k < StarButtons ==> (r[k] <==> Highlighted(hover, rating, k + 1))
  {
    seq(StarButtons, k requires 0 <= k < StarButtons => Highlighted(hover, rating, k + 1))
  }

  /** The dialog highlights the row the read-only star display would fill
      for the shown rating: a prefix of `Shown` stars, clamped to `0..5`,
      so a hover preview replaces the chosen rating and never adds to it. */
  lemma HighlightsAreStarRow(hover: int, rating: int)
    ensures Highlights(hover, rating) == StarRating.Icons(Shown(hover, rating) as real, StarButtons)
    ensures StarRating.Filled(Highlights(hover, rating)) == StarRating.Clamp(Shown(hover, rating), StarButtons)
  {
    var x := Shown(hover, rating);
    assert Highlights(hover, rating) == StarRating.Icons(x as real, StarButtons);
    StarRating.FilledPrefix(x as real, StarButtons);
    assert (x as real).Floor == x;
  }

  /** `disabled={rating === 0 || isSubmitting}` */
  predicate SubmitDisabled(rating: int, isSubmitting: bool) {
    rating == 0 || isSubmitting
  }

  class Dialog {
    var rating: int
    var hoverRating: int
    var comment: string
    var isSubmitting: bool

    /** Ratings only ever come from the five star buttons. */
    predicate Valid()
      reads this
    {
      0 <= rating <= StarButtons && 0 <= hoverRating <= StarButtons
    }

    constructor ()
      ensures rating == 0 && hoverRating == 0 && comment == "" && !isSubmitting
      ensures Valid()
    {
      rating := 0;
      hoverRating := 0;
      comment := "";
      isSubmitting := false;
    }

    /** Clicking star `star` chooses it. */
    method ClickStar(star: int)
      requires 1 <= star <= StarButtons
      modifies this
      ensures rating == star
      ensures hoverRating == old(hoverRating) && comment == old(comment)
      ensures isSubmitting == old(isSubmitting)
      ensures old(Valid()) ==> Valid()
    {
      rating := star;
    }

    /** The mouse enters star `star`. */
    method HoverStar(star: int)
      requires 1 <= star <= StarButtons
      modifies this
      ensures hoverRating == star
      ensures rating == old(rating) && comment == old(comment)
      ensures isSubmitting == old(isSubmitting)
      ensures old(Valid()) ==> Valid()
    {
      hoverRating := star;
    }

    /** The mouse leaves a star. */
    method LeaveStar()
      modifies this
      ensures hoverRating == 0
      ensures rating == old(rating) && comment == old(comment)
      ensures isSubmitting == old(isSubmitting)
      ensures old(Valid()) ==> Valid()
    {
      hoverRating := 0;
    }

    method EditComment(text: string)
      modifies this
      ensures comment == text
      ensures rating == old(rating) && hoverRating == old(hoverRating)
      ensures isSubmitting == old(isSubmitting)
      ensures old(Valid()) ==> Valid()
    {
      comment := text;
    }

    /**
     * `handleSubmit`: nothing while no star is chosen; otherwise the
     * submitting flag is set and the rating and comment of this moment are
     * what `onSubmit` receives once the one-second timer fires. The handler
     * itself does not look at `isSubmitting`; the disabled button is what
     * keeps a second submission out.
     */
    method HandleSubmit() returns (sent: Option<Submission>)
      modifies this
      ensures old(rating) == 0 ==> sent == None && isSubmitting == old(isSubmitting)
      ensures old(rating) != 0 ==> isSubmitting && sent == Some(Submission(old(rating), old(comment)))
      ensures rating == old(rating) && hoverRating == old(hoverRating) && comment == old(comment)
      ensures !SubmitDisabled(old(rating), old(isSubmitting)) ==> sent.Some?
      ensures sent.Some? ==> SubmitDisabled(rating, isSubmitting)
      ensures old(Valid()) && sent.Some? ==> 1 <= sent.value.rating <= StarButtons
      ensures old(Valid()) ==> Valid()
    {
      if rating == 0 {
        return None;
      }
      isSubmitting := true;
      sent := Some(Submission(rating, comment));
    }
  }
}
