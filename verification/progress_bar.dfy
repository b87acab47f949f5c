/** The step indicator of the registration wizard: one circle per step, numbered from 1, each
    classified as completed, active or inactive for the circle and for its number. */
module ProgressBar {
  import opened Common

  /** The three style classes a step circle or its number can take. */
  datatype StepStyle = Completed | Active | Inactive

  /** One rendered step: its number, circle and number styles, and its title (undefined past
      the end of the title list). */
  datatype StepView = StepView(number: int, circle: StepStyle, text: StepStyle, title: Option<string>)

  /** The classification of the step at `index`: completed before `currentStep`, active at
      `currentStep - 1`, inactive otherwise. A step is completed exactly when its index is below
      the current step, and otherwise inactive: the active class is never chosen, since
      `index == currentStep - 1` already means `index < currentStep`. */
  function Classify(index: int, currentStep: int): (style: StepStyle)
    ensures style == Completed <==> index < currentStep
    ensures style == Inactive <==> index >= currentStep
    ensures style != Active
  {
    if index < currentStep then Completed
    else if index == currentStep - 1 then Active
    else Inactive
  }

  /** `Array.from({length: totalSteps}, …)`: a negative length gives no steps. */
  function StepCount(totalSteps: int): (n: nat)
    ensures totalSteps >= 0 ==> n == totalSteps
    ensures totalSteps < 0 ==> n == 0
  {
    if totalSteps < 0 then 0 else totalSteps
  }

  /** The steps as rendered. */
  function Steps(currentStep: int, totalSteps: int, stepTitles: seq<string>): (r: seq<StepView>)
    ensures |r| == StepCount(totalSteps)
    ensures forall i :: 0 <= i < |r| ==> r[i].number == i + 1
    ensures forall i :: 0 <= i < |r| ==> r[i].text == r[i].circle
    ensures forall i :: 0 <= i < |r| ==> (r[i].circle == Completed <==> i < currentStep)
    ensures forall i :: 0 <= i < |r| ==> r[i].circle != Active
    ensures forall i :: 0 <= i < |r| ==>
      r[i].title == if i < |stepTitles| then Some(stepTitles[i]) else None
  {
    var n := StepCount(totalSteps);
    seq(n, (index: int) requires 0 <= index < n =>
      StepView(index + 1, Classify(index, currentStep), Classify(index, currentStep),
               if index < |stepTitles| then Some(stepTitles[index]) else None))
  }

  /** The number of completed steps in a list. */
  function CountCompleted(s: seq<StepView>): nat {
    if s == [] then 0
    else CountCompleted(s[..|s| - 1]) + (if s[|s| - 1].circle == Completed then 1 else 0)
  }

  /** The number of completed circles is the current step, clamped to 0..number of steps. */
  lemma {:induction false} CompletedCount(currentStep: int, totalSteps: int, stepTitles: seq<string>)
    ensures CountCompleted(Steps(currentStep, totalSteps, stepTitles)) ==
      Min(Max(currentStep, 0), StepCount(totalSteps))
    decreases StepCount(totalSteps)
  {
    var r := Steps(currentStep, totalSteps, stepTitles);
    var n := StepCount(totalSteps);
    if n > 0 {
      var shorter := Steps(currentStep, n - 1, stepTitles);
      assert r[..n - 1] == shorter;
      CompletedCount(currentStep, n - 1, stepTitles);
    }
  }

  function Min(a: int, b: int): int {
    if a < b then a else b
  }

  function Max(a: int, b: int): int {
    if a > b then a else b
  }
}
