/** The progress bar above every step: the current step's title, the
    "Step n of 6" counter, and one segment per step coloured completed,
    current or inactive. */
module ProgressBar {
  import opened Text
  import opened FormStore
  import opened Constants

  datatype Status = Completed | Current | Inactive

  /** A segment's colour: steps before the current one are completed,
      the current one is current, the rest inactive. */
  function StatusOf(stepNumber: int, currentStep: int): (st: Status)
    ensures st == Completed <==> stepNumber < currentStep
    ensures st == Current <==> stepNumber == currentStep
    ensures st == Inactive <==> stepNumber > currentStep
  {
    if stepNumber < currentStep then Completed
    else if stepNumber == currentStep then Current
    else Inactive
  }

  /** One segment: its caption, its colour, and whether the moving
      highlight is drawn over it. */
  datatype Segment = Segment(caption: string, status: Status, highlighted: bool)

  /** `FORM_STEPS.map((step, index) => ...)`: segment `i` is step `i + 1`. */
  function Segments(currentStep: int): (r: seq<Segment>)
    ensures |r| == |FORM_STEPS|
    ensures forall i :: 0 <= i < |r| ==> r[i].caption == FORM_STEPS[i].stepLabel
    ensures forall i :: 0 <= i < |r| ==> r[i].status == StatusOf(i + 1, currentStep)
    ensures forall i :: 0 <= i < |r| ==> (r[i].highlighted <==> i + 1 == currentStep)
  {
    seq(|FORM_STEPS|, i requires 0 <= i < |FORM_STEPS| =>
      Segment(FORM_STEPS[i].stepLabel, StatusOf(i + 1, currentStep), i + 1 == currentStep))
  }

  /** `FORM_STEPS[currentStep - 1].title`. */
  function Title(currentStep: int): (t: string)
    requires ValidStep(currentStep)
    ensures exists i :: 0 <= i < |FORM_STEPS| && FORM_STEPS[i].step == currentStep && FORM_STEPS[i].title == t
  {
    FormStepsNumbered();
    FORM_STEPS[currentStep - 1].title
  }

  /** `Step {currentStep} of {FORM_STEPS.length}`. */
  function Counter(currentStep: nat): string {
    "Step " + NatToString(currentStep) + " of " + NatToString(|FORM_STEPS|)
  }

  /** For a valid step exactly one segment is current, and it carries the
      highlight; exactly the segments before it are completed. */
  lemma OneCurrentSegment(currentStep: int)
    requires ValidStep(currentStep)
    ensures var segs := Segments(currentStep);
      0 <= currentStep - 1 < |segs|
      && segs[currentStep - 1].status == Current && segs[currentStep - 1].highlighted
      && (forall i :: 0 <= i < |segs| && segs[i].status == Current ==> i == currentStep - 1)
      && (forall i :: 0 <= i < |segs| ==> (segs[i].status == Completed <==> i < currentStep - 1))
  {
    FormStepsNumbered();
  }

  /** The title is the current step's own, whatever the store went
      through: every reachable step number names an entry of the list. */
  lemma TitleAfterAnyHistory(actions: seq<Action>)
    ensures var n := Run(InitialStore, actions).currentStep;
      ValidStep(n) && FORM_STEPS[n - 1].step == n
  {
    InitialStepValid();
    RunKeepsStepValid(InitialStore, actions);
    FormStepsNumbered();
  }

  /** A one-digit number prints as its digit. */
  lemma SmallNumberText(n: nat)
    requires n < 10
    ensures NatToString(n) == [('0' as int + n) as char]
  {
  }

  /** On every valid step the counter reads "Step n of 6" with n as one
      digit. */
  lemma CounterText(currentStep: nat)
    requires ValidStep(currentStep)
    ensures Counter(currentStep) == "Step " + [('0' as int + currentStep) as char] + " of 6"
  {
    SmallNumberText(currentStep);
    SmallNumberText(|FORM_STEPS|);
  }

  /** What a new visitor sees: "New DNV Quote Request", "Step 1 of 6", the
      first segment current and every other one inactive. */
  lemma FirstScreen()
    ensures Title(InitialStore.currentStep) == "New DNV Quote Request"
    ensures Counter(InitialStore.currentStep) == "Step 1 of 6"
    ensures Segments(InitialStore.currentStep)[0] == Segment("DNV Quote Request", Current, true)
    ensures forall i :: 1 <= i < |FORM_STEPS| ==> Segments(InitialStore.currentStep)[i].status == Inactive
  {
    SmallNumberText(1);
    SmallNumberText(6);
  }
}
