/** Step 1, organization and primary contact: its rule table, the "same as
    legal entity" toggle, and Continue / Save. `values` is the step's own
    react-hook-form state, initialised from the store. */
module Step1 {
  import opened Values
  import opened FormStore
  import opened FieldRules

  /** The `register` calls of the step, in page order. */
  const Step1Rules: seq<Rule> := [
    Rule("legalEntityName", Some("Legal Entity Name is required"), None),
    Rule("doingBusinessAs", Some("Doing Business As Name is required"), None),
    Rule("firstName", Some("First Name is required"), None),
    Rule("lastName", Some("Last Name is required"), None),
    Rule("title", Some("Title is required"), None),
    Rule("workPhone", Some("Work Phone is required"), Some((WorkPhone, "Please enter a valid phone number"))),
    Rule("cellPhone", None, None),
    Rule("email", Some("Email is required"), Some((EmailAddress, "Please enter a valid email address")))
  ]

  /** Every field but the cell phone is required, with its fixed message;
      only the work phone and the email carry a pattern. */
  lemma Step1RuleCoverage()
    ensures |Step1Rules| == 8
    ensures forall i :: 0 <= i < |Step1Rules| ==> (Step1Rules[i].required.None? <==> Step1Rules[i].field == "cellPhone")
    ensures forall i :: 0 <= i < |Step1Rules| ==> (Step1Rules[i].pattern.Some? <==> Step1Rules[i].field in {"workPhone", "email"})
    ensures Step1Rules[0].required == Some("Legal Entity Name is required")
    ensures Step1Rules[5].pattern == Some((WorkPhone, "Please enter a valid phone number"))
    ensures Step1Rules[7].pattern == Some((EmailAddress, "Please enter a valid email address"))
  {
  }

  /** `handleSameAsLegalChange`: the step's values get the flag and a d/b/a
      name copied from the legal entity name (or cleared); the store gets
      only the flag. */
  function SameAsLegalChange(values: FormData, s: Store, checked: bool): (r: (FormData, Store))
    ensures r.0.Keys == values.Keys + {"sameAsLegalEntity", "doingBusinessAs"}
    ensures r.0["sameAsLegalEntity"] == Bool(checked)
    ensures checked ==> r.0["doingBusinessAs"] == Field(values, "legalEntityName")
    ensures !checked ==> r.0["doingBusinessAs"] == Str("")
    ensures forall k :: k in values && k != "sameAsLegalEntity" && k != "doingBusinessAs" ==> r.0[k] == values[k]
    ensures r.1.currentStep == s.currentStep
    ensures r.1.data.Keys == s.data.Keys + {"sameAsLegalEntity"}
    ensures r.1.data["sameAsLegalEntity"] == Bool(checked)
    ensures forall k :: k in s.data && k != "sameAsLegalEntity" ==> r.1.data[k] == s.data[k]
  {
    var values' := values["sameAsLegalEntity" := Bool(checked)];
    var store' := UpdateFormData(s, map["sameAsLegalEntity" := Bool(checked)]);
    var dba := if checked then Field(values, "legalEntityName") else Str("");
    (values'["doingBusinessAs" := dba], store')
  }

  /** After the toggle the store shows the alternate Step 2 exactly when
      the box was checked. */
  lemma ToggleDecidesAlternateStep2(values: FormData, s: Store, checked: bool)
    ensures ShowAlternateStep2(SameAsLegalChange(values, s, checked).1) <==> checked
  {
  }

  /** The d/b/a input is disabled while the watched flag is set. */
  predicate DoingBusinessAsDisabled(values: FormData) {
    Truthy(Field(values, "sameAsLegalEntity"))
  }

  /** The d/b/a input is disabled exactly when the box was last checked. */
  lemma ToggleDisablesDoingBusinessAs(values: FormData, s: Store, checked: bool)
    ensures DoingBusinessAsDisabled(SameAsLegalChange(values, s, checked).0) <==> checked
  {
  }

  /** Continue (`onSubmit`): merge the step's values, then one step on. */
  function Step1Submit(s: Store, values: FormData): (r: Store)
    ensures AllPass(Step1Rules, values) ==> r == NextStep(UpdateFormData(s, values))
    ensures !AllPass(Step1Rules, values) ==> r == s
  {
    Submit(s, values, Step1Rules)
  }

  /** An empty legal entity name blocks Continue with its message. */
  lemma EmptyLegalNameBlocks(s: Store, values: FormData)
    requires IsEmpty(Field(values, "legalEntityName"))
    ensures Step1Submit(s, values) == s
    ensures RuleError(Step1Rules[0], Field(values, "legalEntityName")) == Some("Legal Entity Name is required")
  {
    assert !Passes(Step1Rules[0], values);
  }

  /** Checking the box on a form whose legal entity name is filled in makes
      the d/b/a name that same text, and the toggle itself never moves the
      step. */
  lemma CheckCopiesLegalName(values: FormData, s: Store, name: string)
    requires Field(values, "legalEntityName") == Str(name)
    ensures SameAsLegalChange(values, s, true).0["doingBusinessAs"] == Str(name)
    ensures SameAsLegalChange(values, s, true).1.currentStep == s.currentStep
  {
  }
}
