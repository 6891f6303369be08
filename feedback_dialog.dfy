/**
 * The `FeedbackDialog`: a type selector, a title, a description and a five-star rating.
 * Submitting checks only that the title and description are not blank; the server's
 * length bounds are checked by the server.
 */
module FeedbackDialogView {
  import opened Wrappers
  import Text
  import Schema
  import Gauge

  /** The type selector's options, in their on-screen order. */
  const TypeOptions: seq<string> := ["bug", "feature", "improvement", "other"]
  const StarCount: nat := 5
  const TitleMaxLength: nat := 100
  const DescriptionMaxLength: nat := 1000

  /** The dialog's form; `kind` holds the `type` field. */
  datatype Form = Form(kind: string, title: string, description: string, rating: Option<int>)

  /** The form the dialog opens with, and the one it is reset to after a successful submission. */
  const InitialForm: Form := Form("improvement", "", "", Some(5))

  /** The selector offers exactly the types the feedback schema accepts. */
  lemma TypeOptionsMatchSchema()
    ensures TypeOptions == Schema.FeedbackTypes
  {
  }

  /** `handleSubmit`: the form goes to the mutation unless its title or description trims to nothing. */
  function Submission(f: Form): (sent: Option<Form>)
    ensures sent.None? <==> Text.Blank(f.title) || Text.Blank(f.description)
    ensures sent.Some? ==> sent.value == f
  {
    Text.TrimEmptyIff(f.title);
    Text.TrimEmptyIff(f.description);
    if Text.Trim(f.title) == "" || Text.Trim(f.description) == "" then None else Some(f)
  }

  /** The stars: star s is filled when s <= rating, a missing rating counting as 0. */
  function Stars(f: Form): (filled: seq<bool>)
    ensures |filled| == StarCount
    ensures forall i :: 0 <= i < StarCount ==> (filled[i] <==> i + 1 <= f.rating.GetOr(0))
    ensures (f.rating.Some? && 0 <= f.rating.value <= StarCount as int
             ==> Gauge.CountLit(filled) == f.rating.value)
  {
    Gauge.MarksShowLevel(f.rating.GetOr(0), StarCount);
    Gauge.Marks(f.rating.GetOr(0), StarCount)
  }

  /** The request body built from a submitted form: the form plus the browser's user agent. */
  function Body(f: Form, userAgent: string): Schema.FeedbackInput
  {
    Schema.FeedbackInput(f.kind, None, f.title, f.description,
      if f.rating.Some? then Some(f.rating.value as real) else None, Some(userAgent))
  }

  /** A form the dialog's controls can produce. */
  predicate Reachable(f: Form)
  {
    && f.kind in TypeOptions
    && |f.title| <= TitleMaxLength
    && |f.description| <= DescriptionMaxLength
    && (f.rating.Some? ==> 1 <= f.rating.value <= StarCount as int)
  }

  /**
   * Of what the dialog sends, the server can refuse a body only for a title shorter than
   * 5 characters or a description shorter than 10: type, rating and upper bounds always pass.
   */
  lemma ServerRejectsOnlyShortText(f: Form, userAgent: string)
    requires Reachable(f) && Submission(f).Some?
    ensures (Schema.ParseFeedback(Schema.EncodeFeedback(Body(f, userAgent))) == Some(Body(f, userAgent))
             <==> 5 <= |f.title| && 10 <= |f.description|)
  {
    var x := Body(f, userAgent);
    if 5 <= |f.title| && 10 <= |f.description| {
      Schema.FeedbackRoundTrip(x);
    }
  }

  /** A non-blank title too short for the server: the dialog sends it, and the server refuses it. */
  lemma ShortTitleSentButRefused(userAgent: string)
    ensures var f := Form("bug", "Oops", "Crashes on open", Some(2));
      && Reachable(f) && Submission(f) == Some(f)
      && Schema.ParseFeedback(Schema.EncodeFeedback(Body(f, userAgent))) != Some(Body(f, userAgent))
  {
    var f := Form("bug", "Oops", "Crashes on open", Some(2));
    assert !Text.IsJsWhitespace(f.title[0]);
    assert !Text.IsJsWhitespace(f.description[0]);
    ServerRejectsOnlyShortText(f, userAgent);
  }

  class FeedbackDialog {
    var open: bool
    var form: Form

    ghost predicate Valid()
      reads this
    {
      Reachable(form)
    }

    constructor()
      ensures Valid()
      ensures !open && form == InitialForm
    {
      open := false;
      form := InitialForm;
    }

    /** `onOpenChange`: the trigger button opens the dialog, dismissing it closes it. */
    method SetOpen(open: bool)
      modifies this
      ensures this.open == open && form == old(form)
    {
      this.open := open;
    }

    method SelectType(kind: string)
      requires Valid() && kind in TypeOptions
      modifies this
      ensures Valid()
      ensures open == old(open) && form == old(form).(kind := kind)
    {
      form := form.(kind := kind);
    }

    /** Typing into the title; the input holds at most 100 characters. */
    method EditTitle(title: string)
      requires Valid() && |title| <= TitleMaxLength
      modifies this
      ensures Valid()
      ensures open == old(open) && form == old(form).(title := title)
    {
      form := form.(title := title);
    }

    /** Typing into the description; the text area holds at most 1000 characters. */
    method EditDescription(description: string)
      requires Valid() && |description| <= DescriptionMaxLength
      modifies this
      ensures Valid()
      ensures open == old(open) && form == old(form).(description := description)
    {
      form := form.(description := description);
    }

    /** Clicking star `rating`. */
    method PressStar(rating: int)
      requires Valid() && 1 <= rating <= StarCount as int
      modifies this
      ensures Valid()
      ensures open == old(open) && form == old(form).(rating := Some(rating))
    {
      form := form.(rating := Some(rating));
    }

    /** The mutation's `onSuccess`: the dialog closes and the form returns to its initial state. */
    method OnSuccess()
      modifies this
      ensures Valid()
      ensures !open && form == InitialForm
    {
      open := false;
      form := InitialForm;
    }
  }
}
