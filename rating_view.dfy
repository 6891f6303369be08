/**
 * The `RatingInterface` dialog: ten score buttons, a Submit button and a close button.
 * `isSubmitting` is the parent's prop saying its rating request is in flight; a disabled
 * button ignores clicks.
 */
module RatingView {
  import opened Wrappers
  import Schema
  import Storage
  import LeaderboardView

  /** The score buttons, in their on-screen order. */
  const Scores: seq<int> := [1, 2, 3, 4, 5, 6, 7, 8, 9, 10]

  /** The selectable scores are exactly the integers 1 to 10. */
  lemma ScoresAreOneToTen()
    ensures forall s :: s in Scores <==> 1 <= s <= 10
  {
    forall s | 1 <= s <= 10 ensures s in Scores {
      assert Scores[s - 1] == s;
    }
  }

  class RatingInterface {
    /** The person being rated and the name the dialog shows for them. */
    const user: Schema.User
    const displayName: string
    var selectedScore: Option<int>

    ghost predicate Valid()
      reads this
    {
      selectedScore.None? || selectedScore.value in Scores
    }

    constructor(user: Schema.User)
      ensures Valid()
      ensures this.user == user && selectedScore == None
      ensures displayName == LeaderboardView.DisplayName(Some(user)) && displayName != ""
    {
      this.user := user;
      displayName := LeaderboardView.DisplayName(Some(user));
      selectedScore := None;
    }

    predicate SubmitDisabled(isSubmitting: bool)
      reads this
    {
      selectedScore.None? || isSubmitting
    }

    /** Both the score buttons and the close button are disabled while submitting. */
    predicate ButtonsDisabled(isSubmitting: bool)
    {
      isSubmitting
    }

    /** Clicking score button `score`. */
    method PressScore(score: int, isSubmitting: bool)
      requires Valid() && score in Scores
      modifies this
      ensures Valid()
      ensures selectedScore == if ButtonsDisabled(isSubmitting) then old(selectedScore) else Some(score)
    {
      if !ButtonsDisabled(isSubmitting) {
        selectedScore := Some(score);
      }
    }

    /** `handleSubmit`: hands `onSubmit` the selected score, or does nothing when none is selected. */
    method HandleSubmit() returns (submitted: Option<int>)
      requires Valid()
      ensures submitted.Some? <==> selectedScore.Some?
      ensures submitted.Some? ==> submitted.value == selectedScore.value && 1 <= submitted.value <= 10
    {
      ScoresAreOneToTen();
      if selectedScore.Some? {
        submitted := Some(selectedScore.value);
      } else {
        submitted := None;
      }
    }

    /**
     * Clicking Submit: nothing while it is disabled, otherwise `handleSubmit`. A score that
     * leaves the dialog passes the server's rating bounds and fits the integer column.
     */
    method PressSubmit(isSubmitting: bool) returns (submitted: Option<int>)
      requires Valid()
      ensures submitted.Some? <==> !SubmitDisabled(isSubmitting)
      ensures submitted.Some? ==> submitted == selectedScore
      ensures submitted.Some? ==> 1.0 <= submitted.value as real <= 10.0 && Storage.IsInt32(submitted.value as real)
    {
      if SubmitDisabled(isSubmitting) {
        return None;
      }
      submitted := HandleSubmit();
    }

    /** Clicking the close button: whether `onClose` runs. */
    method PressClose(isSubmitting: bool) returns (closed: bool)
      ensures closed <==> !ButtonsDisabled(isSubmitting)
    {
      closed := !ButtonsDisabled(isSubmitting);
    }
  }
}
