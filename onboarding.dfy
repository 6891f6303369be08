/**
 * `OnboardingFlow`, the three-step profile wizard shown to a signed-in user without a
 * profile: college, then gender, then an optional display name and bio. Next checks the
 * current step's gate and either stays (with a toast), moves on, or at the last step
 * hands the form to the profile-setup mutation; Back goes one step back.
 */
module Onboarding {
  import Schema
  import Gauge

  const LastStep: int := 3

  /** The gender buttons of step 2, in their on-screen order. */
  const GenderChoices: seq<string> := ["male", "female", "other"]

  datatype Form = Form(collegeId: string, gender: string, displayName: string, bio: string)

  const EmptyForm: Form := Form("", "", "", "")

  /** The destructive toasts Next can raise, one per gate. */
  datatype Gate = CollegeRequired | GenderRequired

  /** What one press of Next did. */
  datatype Press = Blocked(gate: Gate) | Advanced | Submitted(form: Form)

  /** The gender buttons offer exactly the genders the user schema accepts. */
  lemma GenderChoicesMatchSchema()
    ensures forall g :: g in GenderChoices <==> g in Schema.Genders
  {
  }

  class OnboardingFlow {
    var step: int
    var form: Form

    ghost predicate Valid()
      reads this
    {
      1 <= step <= LastStep
    }

    constructor()
      ensures Valid()
      ensures step == 1 && form == EmptyForm
    {
      step := 1;
      form := EmptyForm;
    }

    /** The progress bar: segment s is lit when s <= step, so exactly `step` segments are. */
    function Progress(): (lit: seq<bool>)
      reads this
      requires Valid()
      ensures |lit| == LastStep
      ensures forall i :: 0 <= i < LastStep ==> (lit[i] <==> i + 1 <= step)
      ensures Gauge.CountLit(lit) == step
    {
      Gauge.MarksShowLevel(step, LastStep as nat);
      Gauge.Marks(step, LastStep as nat)
    }

    /** The Next / Complete Setup button; the last step submits with no further check. */
    method Next() returns (press: Press)
      requires Valid()
      modifies this
      ensures Valid()
      ensures form == old(form)
      ensures press.Advanced? <==> step == old(step) + 1
      ensures !press.Advanced? ==> step == old(step)
      ensures old(step) == 1 ==> press == (if form.collegeId == "" then Blocked(CollegeRequired) else Advanced)
      ensures old(step) == 2 ==> press == (if form.gender == "" then Blocked(GenderRequired) else Advanced)
      ensures old(step) == LastStep ==> press == Submitted(form)
    {
      if step == 1 && form.collegeId == "" {
        return Blocked(CollegeRequired);
      }
      if step == 2 && form.gender == "" {
        return Blocked(GenderRequired);
      }
      if step < LastStep {
        step := step + 1;
        press := Advanced;
      } else {
        press := Submitted(form);
      }
    }

    /** The Back button, drawn only after the first step. */
    method Back()
      requires Valid() && step > 1
      modifies this
      ensures Valid()
      ensures step == old(step) - 1 && form == old(form)
    {
      step := step - 1;
    }

    /** Picking a college on step 1. */
    method SelectCollege(collegeId: string)
      modifies this
      ensures step == old(step) && form == old(form).(collegeId := collegeId)
    {
      form := form.(collegeId := collegeId);
    }

    /** Pressing one of the gender buttons of step 2. */
    method SelectGender(gender: string)
      requires gender in GenderChoices
      modifies this
      ensures step == old(step) && form == old(form).(gender := gender)
    {
      form := form.(gender := gender);
    }

    /** Typing into the display-name field of step 3. */
    method EditDisplayName(displayName: string)
      modifies this
      ensures step == old(step) && form == old(form).(displayName := displayName)
    {
      form := form.(displayName := displayName);
    }

    /** Typing into the bio field of step 3. */
    method EditBio(bio: string)
      modifies this
      ensures step == old(step) && form == old(form).(bio := bio)
    {
      form := form.(bio := bio);
    }
  }
}
