/** The step counter of the setup wizard (script.js:333-366). */
module Wizard {
  const TotalSteps: nat := 4

  /** The visibility of the wizard's buttons on a step (script.js:341-343). */
  datatype Controls = Controls(prevVisible: bool, nextShown: bool, saveShown: bool)

  /** What `showStep(step)` sets on the three buttons: on every step
      exactly one of "next" and "save" is shown, "save" only on the last
      step, where "back" is also available, and "back" everywhere but on
      the first step. */
  function ControlsOn(step: int): (c: Controls)
    requires 1 <= step <= TotalSteps
    ensures c.nextShown != c.saveShown
    ensures c.saveShown <==> step == TotalSteps
    ensures c.saveShown ==> c.prevVisible
    ensures c.prevVisible <==> step != 1
  {
    Controls(step != 1, step < TotalSteps, step == TotalSteps)
  }

  /** The global `currentStep`. */
  class SetupWizard {
    var step: int

    predicate Valid()
      reads this
    {
      1 <= step <= TotalSteps
    }

    constructor ()
      ensures Valid() && step == 1
    {
      step := 1;
    }

    /** `nextStep()`: moves forward unless on the last step. */
    method NextStep()
      requires Valid()
      modifies this
      ensures Valid()
      ensures step == if old(step) < TotalSteps then old(step) + 1 else old(step)
    {
      if step < TotalSteps {
        step := step + 1;
      }
    }

    /** `prevStep()`: moves back unless on the first step. */
    method PrevStep()
      requires Valid()
      modifies this
      ensures Valid()
      ensures step == if old(step) > 1 then old(step) - 1 else old(step)
    {
      if step > 1 {
        step := step - 1;
      }
    }

    /** `openSetupModal()` as wrapped at script.js:362-366: back to the first step. */
    method OpenSetupModal()
      modifies this
      ensures Valid() && step == 1
    {
      step := 1;
    }
  }

  /** The step reached by `n` presses of "next" from `step`. */
  function Forward(step: int, n: nat): (r: int)
    requires 1 <= step <= TotalSteps
    ensures 1 <= r <= TotalSteps
    ensures r == if step + n < TotalSteps then step + n else TotalSteps
    decreases n
  {
    if n == 0 || step == TotalSteps then step else Forward(step + 1, n - 1)
  }

  /** The step reached by `n` presses of "back" from `step`. */
  function Backward(step: int, n: nat): (r: int)
    requires 1 <= step <= TotalSteps
    ensures 1 <= r <= TotalSteps
    ensures r == if step - n > 1 then step - n else 1
    decreases n
  {
    if n == 0 || step == 1 then step else Backward(step - 1, n - 1)
  }
}
