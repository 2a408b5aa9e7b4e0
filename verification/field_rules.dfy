/** Declared validation rules of the react-hook-form steps (Step 1 and
    Step 3), and what a step's Continue and Save buttons do with them. */
module FieldRules {
  import opened Values
  import opened Validators
  import opened FormStore

  /** The `pattern.value` expressions the steps register. */
  datatype Pattern = LettersOnly | TenDigits | FiveDigits | EmailAddress | WorkPhone

  predicate Matches(p: Pattern, s: string) {
    match p
    case LettersOnly => LettersOnlyPattern(s)
    case TenDigits => PhonePattern(s)
    case FiveDigits => ZipCodePattern(s)
    case EmailAddress => EmailPattern(s)
    case WorkPhone => WorkPhonePattern(s)
  }

  /** One `register(field, {required, pattern})` call: the required message,
      if the field is required, and the pattern with its message. */
  datatype Rule = Rule(field: string, required: Option<string>, pattern: Option<(Pattern, string)>)

  /** What `required` rejects for a text input: no value or the empty string. */
  predicate IsEmpty(v: Value) {
    v == Undefined || v == Str("")
  }

  /** The message a rule shows for a value: the required message for an
      empty required field, else the pattern message for a non-empty string
      the pattern rejects, else none. */
  function RuleError(r: Rule, v: Value): (e: Option<string>)
    ensures r.required.Some? && IsEmpty(v) ==> e == r.required
    ensures r.required.None? && IsEmpty(v) ==> e.None?
    ensures v.Str? && v.s != "" && r.pattern.Some? ==>
      (e.Some? <==> !Matches(r.pattern.value.0, v.s))
    ensures v.Str? && v.s != "" && r.pattern.Some? && !Matches(r.pattern.value.0, v.s) ==>
      e == Some(r.pattern.value.1)
    ensures !IsEmpty(v) && r.pattern.None? ==> e.None?
  {
    if IsEmpty(v) then r.required
    else if r.pattern.Some? && v.Str? && !Matches(r.pattern.value.0, v.s) then Some(r.pattern.value.1)
    else None
  }

  predicate Passes(r: Rule, values: FormData) {
    RuleError(r, Field(values, r.field)).None?
  }

  predicate AllPass(rules: seq<Rule>, values: FormData) {
    forall i :: 0 <= i < |rules| ==> Passes(rules[i], values)
  }

  /** Continue: `handleSubmit(onSubmit)` calls `onSubmit(values)` only when
      every rule passes; `onSubmit` merges all of the step's values into the
      store and then moves one step on. */
  function Submit(s: Store, values: FormData, rules: seq<Rule>): (r: Store)
    ensures AllPass(rules, values) ==> r.data == s.data + values
    ensures AllPass(rules, values) && s.currentStep < LastStep ==> r.currentStep == s.currentStep + 1
    ensures !AllPass(rules, values) ==> r == s
  {
    if AllPass(rules, values) then NextStep(UpdateFormData(s, values)) else s
  }

  /** Save: merges the step's current values whatever the rules say and
      stays on the step. */
  function Save(s: Store, values: FormData): (r: Store)
    ensures r.currentStep == s.currentStep
    ensures r.data.Keys == s.data.Keys + values.Keys
    ensures forall k :: k in values ==> r.data[k] == values[k]
    ensures forall k :: k in s.data && k !in values ==> r.data[k] == s.data[k]
  {
    UpdateFormData(s, values)
  }

  /** A rule whose field is empty fails exactly when the field is required. */
  lemma EmptyFieldFailsIffRequired(rules: seq<Rule>, values: FormData, i: int)
    requires 0 <= i < |rules| && IsEmpty(Field(values, rules[i].field))
    ensures !Passes(rules[i], values) <==> rules[i].required.Some?
    ensures !AllPass(rules, values) <== rules[i].required.Some?
  {
  }
}
