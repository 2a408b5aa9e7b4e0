/** The shared form store: the record of every answer and the step counter,
    with the operations the form context hands to the steps. */
module FormStore {
  import opened Values

  const FirstStep := 1
  const LastStep := 6

  predicate ValidStep(n: int) {
    FirstStep <= n <= LastStep
  }

  /** The record the application starts with and `resetForm` restores. */
  const InitialFormData: FormData := map[
    // Step 1: organization and primary contact
    "legalEntityName" := Str(""),
    "doingBusinessAs" := Str(""),
    "sameAsLegalEntity" := Bool(false),
    "firstName" := Str(""),
    "lastName" := Str(""),
    "title" := Str(""),
    "workPhone" := Str(""),
    "cellPhone" := Str(""),
    "email" := Str(""),
    "emailVerified" := Bool(false),
    // Step 2: facility type
    "facilityType" := Str(""),
    // Step 3: leadership contacts and billing address
    "ceoFirstName" := Str(""),
    "ceoLastName" := Str(""),
    "ceoPhone" := Str(""),
    "ceoEmail" := Str(""),
    "ceoSameAsPrimary" := Bool(false),
    "qualityFirstName" := Str(""),
    "qualityLastName" := Str(""),
    "qualityPhone" := Str(""),
    "qualityEmail" := Str(""),
    "qualitySameAsPrimary" := Bool(false),
    "invoicingFirstName" := Str(""),
    "invoicingLastName" := Str(""),
    "invoicingPhone" := Str(""),
    "invoicingEmail" := Str(""),
    "invoicingSameAsPrimary" := Bool(false),
    "streetAddress" := Str(""),
    "city" := Str(""),
    "state" := Str(""),
    "zipCode" := Str(""),
    // Step 4: site information
    "locationType" := Str(""),
    "uploadedFiles" := Files([]),
    // Step 5: services and certifications
    "servicesData" := Services([]),
    "selectedStandards" := StrList([]),
    "applicationDate" := Str(""),
    "strokeCertificationExpiry" := Str(""),
    "thrombolyticDates" := StrList([]),
    "thrombectomyDates" := StrList([])
  ]

  datatype Store = Store(currentStep: int, data: FormData)

  const InitialStore := Store(FirstStep, InitialFormData)

  /** `updateFormData(patch)`: the shallow merge `{...prev, ...patch}`. */
  function UpdateFormData(s: Store, patch: FormData): (r: Store)
    ensures r.currentStep == s.currentStep
    ensures r.data.Keys == s.data.Keys + patch.Keys
    ensures forall k :: k in patch ==> r.data[k] == patch[k]
    ensures forall k :: k in s.data && k !in patch ==> r.data[k] == s.data[k]
  {
    s.(data := s.data + patch)
  }

  /** `nextStep()`: one step forward unless already on the last step. */
  function NextStep(s: Store): (r: Store)
    ensures r.data == s.data
    ensures s.currentStep < LastStep ==> r.currentStep == s.currentStep + 1
    ensures s.currentStep >= LastStep ==> r == s
  {
    if s.currentStep < LastStep then s.(currentStep := s.currentStep + 1) else s
  }

  /** `previousStep()`: one step back unless already on the first step. */
  function PreviousStep(s: Store): (r: Store)
    ensures r.data == s.data
    ensures s.currentStep > FirstStep ==> r.currentStep == s.currentStep - 1
    ensures s.currentStep <= FirstStep ==> r == s
  {
    if s.currentStep > FirstStep then s.(currentStep := s.currentStep - 1) else s
  }

  /** `goToStep(n)`: jumps to `n` when it names a step, ignores it otherwise. */
  function GoToStep(s: Store, n: int): (r: Store)
    ensures r.data == s.data
    ensures ValidStep(n) ==> r.currentStep == n
    ensures !ValidStep(n) ==> r == s
  {
    if n >= FirstStep && n <= LastStep then s.(currentStep := n) else s
  }

  /** `resetForm()`: back to the initial record on the first step. */
  function ResetForm(s: Store): (r: Store)
    ensures r.currentStep == FirstStep
    ensures r.data == InitialFormData
  {
    InitialStore
  }

  /** `showAlternateStep2()`: `formData.sameAsLegalEntity === true`, so a
      truthy value of another kind does not count. */
  predicate ShowAlternateStep2(s: Store) {
    Field(s.data, "sameAsLegalEntity") == Bool(true)
  }

  lemma ShowAlternateStep2IsStrict(s: Store)
    ensures ShowAlternateStep2(s) <==> "sameAsLegalEntity" in s.data && s.data["sameAsLegalEntity"] == Bool(true)
    ensures s.data == InitialFormData ==> !ShowAlternateStep2(s)
  {
  }

  /** The operations the context exposes, as one alphabet of events. */
  datatype Action =
    | Update(patch: FormData)
    | Next
    | Previous
    | GoTo(target: int)
    | Reset

  function Apply(s: Store, a: Action): Store {
    match a
    case Update(p) => UpdateFormData(s, p)
    case Next => NextStep(s)
    case Previous => PreviousStep(s)
    case GoTo(n) => GoToStep(s, n)
    case Reset => ResetForm(s)
  }

  function Run(s: Store, actions: seq<Action>): Store
    decreases |actions|
  {
    if |actions| == 0 then s else Run(Apply(s, actions[0]), actions[1..])
  }

  /** Every single operation keeps the counter inside 1..6. */
  lemma ApplyKeepsStepValid(s: Store, a: Action)
    requires ValidStep(s.currentStep)
    ensures ValidStep(Apply(s, a).currentStep)
  {
  }

  /** From any valid counter, in particular the initial 1, no sequence of
      operations takes the counter outside 1..6. */
  lemma {:induction false} RunKeepsStepValid(s: Store, actions: seq<Action>)
    requires ValidStep(s.currentStep)
    ensures ValidStep(Run(s, actions).currentStep)
    decreases |actions|
  {
    if |actions| > 0 {
      ApplyKeepsStepValid(s, actions[0]);
      RunKeepsStepValid(Apply(s, actions[0]), actions[1..]);
    }
  }

  lemma InitialStepValid()
    ensures ValidStep(InitialStore.currentStep)
  {
  }

  lemma {:induction false} RunAppend(s: Store, actions: seq<Action>, a: Action)
    ensures Run(s, actions + [a]) == Apply(Run(s, actions), a)
    decreases |actions|
  {
    if |actions| > 0 {
      assert (actions + [a])[1..] == actions[1..] + [a];
      RunAppend(Apply(s, actions[0]), actions[1..], a);
    }
  }

  /** Whatever happened before, a reset leaves exactly the initial store. */
  lemma ResetAfterAnyHistory(s: Store, actions: seq<Action>)
    ensures Run(s, actions + [Reset]) == InitialStore
  {
    RunAppend(s, actions, Reset);
  }

  /** No operation ever removes a key, so every key of the initial record
      stays present whatever the history. */
  lemma {:induction false} RunKeepsInitialKeys(s: Store, actions: seq<Action>)
    requires InitialFormData.Keys <= s.data.Keys
    ensures InitialFormData.Keys <= Run(s, actions).data.Keys
    decreases |actions|
  {
    if |actions| > 0 {
      RunKeepsInitialKeys(Apply(s, actions[0]), actions[1..]);
    }
  }

  /** Navigation never touches the answers. */
  lemma NavigationKeepsData(s: Store, n: int)
    ensures NextStep(s).data == s.data
    ensures PreviousStep(s).data == s.data
    ensures GoToStep(s, n).data == s.data
  {
  }

  lemma EmptyPatchIsIdentity(s: Store)
    ensures UpdateFormData(s, map[]) == s
  {
    assert s.data + map[] == s.data;
  }

  lemma PatchIsIdempotent(s: Store, patch: FormData)
    ensures UpdateFormData(UpdateFormData(s, patch), patch) == UpdateFormData(s, patch)
  {
    assert (s.data + patch) + patch == s.data + patch;
  }
}
