/** The reusable Step 3 contact block: a prefix-keyed group of first name,
    last name, phone and email inputs with a "same as primary" check box. */
module ContactSection {
  import opened Text
  import opened Values
  import opened FieldRules

  /** The three prefixes Step 3 instantiates the block with. */
  datatype Prefix = Ceo | Quality | Invoicing

  function PrefixText(p: Prefix): string {
    match p
    case Ceo => "ceo"
    case Quality => "quality"
    case Invoicing => "invoicing"
  }

  datatype ContactField = FirstName | LastName | Phone | Email

  const ContactFields: seq<ContactField> := [FirstName, LastName, Phone, Email]

  function FieldSuffix(f: ContactField): string {
    match f
    case FirstName => "FirstName"
    case LastName => "LastName"
    case Phone => "Phone"
    case Email => "Email"
  }

  /** The words the required messages use for each field. */
  function FieldCaption(f: ContactField): string {
    match f
    case FirstName => "First Name"
    case LastName => "Last Name"
    case Phone => "Phone"
    case Email => "Email"
  }

  /** `getFieldName(field)`: `${prefix}${field}`. */
  function FieldName(p: Prefix, f: ContactField): string {
    PrefixText(p) + FieldSuffix(f)
  }

  /** `${prefix}SameAsPrimary`, the block's flag. */
  function FlagName(p: Prefix): string {
    PrefixText(p) + "SameAsPrimary"
  }

  /** A prefix followed by a non-empty suffix determines both: the three
      prefixes start with different letters, and the suffix is what is left. */
  lemma {:induction false} PrefixedNameInjective(p1: Prefix, s1: string, p2: Prefix, s2: string)
    requires PrefixText(p1) + s1 == PrefixText(p2) + s2
    ensures p1 == p2 && s1 == s2
  {
    var a, b := PrefixText(p1) + s1, PrefixText(p2) + s2;
    assert a[0] == PrefixText(p1)[0] && b[0] == PrefixText(p2)[0];
    assert p1 == p2;
    assert s1 == a[|PrefixText(p1)|..];
    assert s2 == b[|PrefixText(p2)|..];
  }

  /** The block's five keys are pairwise distinct and never shared with
      another block: across the three prefixes the twelve field names and
      three flags are fifteen different keys. */
  lemma NamesDistinct(p1: Prefix, f1: ContactField, p2: Prefix, f2: ContactField)
    ensures FieldName(p1, f1) == FieldName(p2, f2) <==> p1 == p2 && f1 == f2
    ensures FieldName(p1, f1) != FlagName(p2)
    ensures FlagName(p1) == FlagName(p2) <==> p1 == p2
  {
    if FieldName(p1, f1) == FieldName(p2, f2) {
      PrefixedNameInjective(p1, FieldSuffix(f1), p2, FieldSuffix(f2));
      assert FieldSuffix(f1)[0] == FieldSuffix(f2)[0];
    }
    if FieldName(p1, f1) == FlagName(p2) {
      PrefixedNameInjective(p1, FieldSuffix(f1), p2, "SameAsPrimary");
    }
    if FlagName(p1) == FlagName(p2) {
      PrefixedNameInjective(p1, "SameAsPrimary", p2, "SameAsPrimary");
    }
  }

  /** The rule one input registers. */
  function FieldRule(title: string, p: Prefix, f: ContactField, required: bool): Rule {
    var message := if required then Some(title + " " + FieldCaption(f) + " is required") else None;
    var pattern := match f
      case FirstName => (LettersOnly, "First Name can only contain letters")
      case LastName => (LettersOnly, "Last Name can only contain letters")
      case Phone => (TenDigits, "Phone number must be exactly 10 digits")
      case Email => (EmailAddress, "Please enter a valid email address");
    Rule(FieldName(p, f), message, Some(pattern))
  }

  /** The four rules of a block: a required message
      `${title} <Field> is required` exactly when the block is required, and
      the pattern of each field whether or not it is. */
  function ContactRules(title: string, p: Prefix, required: bool): (rules: seq<Rule>)
    ensures |rules| == 4
    ensures forall i :: 0 <= i < 4 ==> rules[i].field == FieldName(p, ContactFields[i])
    ensures forall i :: 0 <= i < 4 ==> (rules[i].required.Some? <==> required)
    ensures required ==> forall i :: 0 <= i < 4 ==>
      rules[i].required == Some(title + " " + FieldCaption(ContactFields[i]) + " is required")
    ensures rules[0].pattern == Some((LettersOnly, "First Name can only contain letters"))
    ensures rules[1].pattern == Some((LettersOnly, "Last Name can only contain letters"))
    ensures rules[2].pattern == Some((TenDigits, "Phone number must be exactly 10 digits"))
    ensures rules[3].pattern == Some((EmailAddress, "Please enter a valid email address"))
  {
    seq(4, i requires 0 <= i < 4 => FieldRule(title, p, ContactFields[i], required))
  }

  /** `maxLength` of the phone input. */
  const PhoneMaxLength := 10

  const EditingKeys: seq<string> := ["Backspace", "Delete", "Tab", "ArrowLeft", "ArrowRight"]

  /** The phone `onKeyDown` filter (the ZIP input uses the same one): a key
      goes through when its name contains a digit or it is an editing key. */
  predicate DigitKeyAllowed(key: string) {
    ContainsDigit(key) || key in EditingKeys
  }

  /** Among the keys that type one character, the filter lets through
      exactly the digits. */
  lemma DigitKeyFilterOnCharacters(c: char)
    ensures DigitKeyAllowed([c]) <==> IsDigit(c)
  {
    if IsDigit(c) {
      assert [c][0] == c;
    }
    assert forall i :: 0 <= i < |EditingKeys| ==> |EditingKeys[i]| > 1;
  }

  lemma DigitKeyFilterOnEditingKeys(key: string)
    requires key in EditingKeys
    ensures DigitKeyAllowed(key)
  {
  }

  /** One input of the block as rendered: its registered name and whether
      it is disabled. */
  datatype Input = Input(name: string, disabled: bool)

  /** The four inputs, all disabled exactly while the block's flag is set. */
  function Inputs(p: Prefix, sameAsPrimary: bool): (inputs: seq<Input>)
    ensures |inputs| == 4
    ensures forall i :: 0 <= i < 4 ==> inputs[i].name == FieldName(p, ContactFields[i])
    ensures forall i :: 0 <= i < 4 ==> (inputs[i].disabled <==> sameAsPrimary)
  {
    seq(4, i requires 0 <= i < 4 => Input(FieldName(p, ContactFields[i]), sameAsPrimary))
  }
}
