/**
 * `RegistrationFlow`, the four-step sign-up wizard: college, then name, display name and
 * college email, then gender, then an optional photo. Next checks the current step's gate
 * and either stays (with a toast), moves on, or at the last step hands the form to the
 * register mutation; Back goes one step back.
 */
module Registration {
  import opened Wrappers
  import Text
  import Schema
  import Gauge

  const LastStep: int := 4

  /** Step 2 accepts only addresses that end with this suffix (case-sensitive). */
  const CollegeDomain: string := "@sggs.ac.in"

  /** The gender buttons of step 3, in their on-screen order. */
  const GenderChoices: seq<string> := ["male", "female", "other"]

  /** The wizard's form; `profileImage` names the chosen file, if any. */
  datatype Form = Form(
    collegeId: string,
    email: string,
    firstName: string,
    displayName: string,
    gender: string,
    profileImage: Option<string>)

  const EmptyForm: Form := Form("", "", "", "", "", None)

  /** The destructive toasts Next can raise, one per gate. */
  datatype Gate = CollegeRequired | DetailsRequired | InvalidEmailDomain | GenderRequired

  /** What one press of Next did. */
  datatype Press = Blocked(gate: Gate) | Advanced | Submitted(form: Form)

  /** All three text fields of step 2 are filled in. */
  predicate DetailsFilled(f: Form)
  {
    f.firstName != "" && f.email != "" && f.displayName != ""
  }

  /** The gender buttons offer exactly the genders the user schema accepts. */
  lemma GenderChoicesMatchSchema()
    ensures forall g :: g in GenderChoices <==> g in Schema.Genders
  {
  }

  class RegistrationFlow {
    var step: int
    var form: Form

    ghost predicate Valid()
      reads this
    {
      1 <= step <= LastStep
    }

    constructor()
      ensures Valid()
      ensures step == 1 && form == EmptyForm
    {
      step := 1;
      form := EmptyForm;
    }

    /** The progress bar: segment s is lit when s <= step, so exactly `step` segments are. */
    function Progress(): (lit: seq<bool>)
      reads this
      requires Valid()
      ensures |lit| == LastStep
      ensures forall i :: 0 <= i < LastStep ==> (lit[i] <==> i + 1 <= step)
      ensures Gauge.CountLit(lit) == step
    {
      Gauge.MarksShowLevel(step, LastStep as nat);
      Gauge.Marks(step, LastStep as nat)
    }

    /** The Next / Create Account button. */
    method Next() returns (press: Press)
      requires Valid()
      modifies this
      ensures Valid()
      ensures form == old(form)
      ensures press.Advanced? <==> step == old(step) + 1
      ensures !press.Advanced? ==> step == old(step)
      ensures old(step) == 1 ==> press == (if form.collegeId == "" then Blocked(CollegeRequired) else Advanced)
      ensures old(step) == 2 && !DetailsFilled(form) ==> press == Blocked(DetailsRequired)
      ensures old(step) == 2 && DetailsFilled(form) && Text.EndsWith(form.email, CollegeDomain) ==> press == Advanced
      ensures (old(step) == 2 && DetailsFilled(form) && !Text.EndsWith(form.email, CollegeDomain)
               ==> press == Blocked(InvalidEmailDomain))
      ensures old(step) == 3 ==> press == (if form.gender == "" then Blocked(GenderRequired) else Advanced)
      ensures old(step) == LastStep ==> press == Submitted(form)
    {
      if step == 1 && form.collegeId == "" {
        return Blocked(CollegeRequired);
      }
      if step == 2 && (form.firstName == "" || form.email == "" || form.displayName == "") {
        return Blocked(DetailsRequired);
      }
      if step == 2 && !Text.EndsWith(form.email, CollegeDomain) {
        return Blocked(InvalidEmailDomain);
      }
      if step == 3 && form.gender == "" {
        return Blocked(GenderRequired);
      }
      if step < LastStep {
        step := step + 1;
        press := Advanced;
      } else {
        press := Submitted(form);
      }
    }

    /** The Back button, drawn only after the first step. */
    method Back()
      requires Valid() && step > 1
      modifies this
      ensures Valid()
      ensures step == old(step) - 1 && form == old(form)
    {
      step := step - 1;
    }

    /** Picking a college on step 1. */
    method SelectCollege(collegeId: string)
      modifies this
      ensures step == old(step) && form == old(form).(collegeId := collegeId)
    {
      form := form.(collegeId := collegeId);
    }

    /** Typing into the first-name field of step 2. */
    method EditFirstName(firstName: string)
      modifies this
      ensures step == old(step) && form == old(form).(firstName := firstName)
    {
      form := form.(firstName := firstName);
    }

    /** Typing into the display-name field of step 2. */
    method EditDisplayName(displayName: string)
      modifies this
      ensures step == old(step) && form == old(form).(displayName := displayName)
    {
      form := form.(displayName := displayName);
    }

    /** Typing into the email field of step 2. */
    method EditEmail(email: string)
      modifies this
      ensures step == old(step) && form == old(form).(email := email)
    {
      form := form.(email := email);
    }

    /** Pressing one of the gender buttons of step 3. */
    method SelectGender(gender: string)
      requires gender in GenderChoices
      modifies this
      ensures step == old(step) && form == old(form).(gender := gender)
    {
      form := form.(gender := gender);
    }

    /** Choosing a photo on step 4, or removing it (`None`). */
    method SetPhoto(profileImage: Option<string>)
      modifies this
      ensures step == old(step) && form == old(form).(profileImage := profileImage)
    {
      form := form.(profileImage := profileImage);
    }
  }
}
