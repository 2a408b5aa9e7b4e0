/** Step 3, leadership contacts and billing address: three contact blocks
    that can copy the primary contact of Step 1, the billing address rules,
    and Continue / Save. `values` is the step's react-hook-form state and
    `primary` the store's record, which the copies read from. */
module Step3 {
  import opened Text
  import opened Values
  import opened Validators
  import opened FormStore
  import opened FieldRules
  import opened ContactSection
  import Step1

  /** The three blocks: title, prefix and whether the block is required. */
  datatype Section = Section(title: string, prefix: Prefix, required: bool)

  const Sections: seq<Section> := [
    Section("Chief Executive Officer (CEO)", Ceo, true),
    Section("Director of Quality", Quality, false),
    Section("Invoicing Contact", Invoicing, true)
  ]

  /** The billing address inputs inside the invoicing block. */
  const BillingRules: seq<Rule> := [
    Rule("streetAddress", Some("Street Address is required"), None),
    Rule("city", Some("City is required"), Some((LettersOnly, "City can only contain letters"))),
    Rule("state", Some("Please select a state"), None),
    Rule("zipCode", Some("ZIP Code is required"), Some((FiveDigits, "ZIP Code must be exactly 5 digits")))
  ]

  function SectionRules(sec: Section): seq<Rule> {
    ContactRules(sec.title, sec.prefix, sec.required)
  }

  /** Every rule the step registers, in page order. */
  const Step3Rules: seq<Rule> :=
    SectionRules(Sections[0]) + SectionRules(Sections[1]) + SectionRules(Sections[2]) + BillingRules

  /** Sixteen rules: the CEO and invoicing fields are required with their
      block's title in the message, the Director of Quality's are not, and
      every billing field is required. */
  lemma Step3RuleCoverage()
    ensures |Step3Rules| == 16
    ensures forall i :: 0 <= i < 4 ==> Step3Rules[i].required.Some?
    ensures forall i :: 4 <= i < 8 ==> Step3Rules[i].required.None?
    ensures forall i :: 8 <= i < 16 ==> Step3Rules[i].required.Some?
    ensures forall i :: 0 <= i < 4 ==> Step3Rules[i].field == FieldName(Ceo, ContactFields[i])
    ensures forall i :: 4 <= i < 8 ==> Step3Rules[i].field == FieldName(Quality, ContactFields[i - 4])
    ensures forall i :: 8 <= i < 12 ==> Step3Rules[i].field == FieldName(Invoicing, ContactFields[i - 8])
    ensures forall i :: 0 <= i < 4 ==>
      Step3Rules[i].required == Some(Sections[0].title + " " + FieldCaption(ContactFields[i]) + " is required")
    ensures forall i :: 8 <= i < 12 ==>
      Step3Rules[i].required == Some(Sections[2].title + " " + FieldCaption(ContactFields[i - 8]) + " is required")
    ensures Step3Rules[12..] == BillingRules
  {
    Step3RulesLayout();
    CeoBlockRules();
    QualityBlockRules();
    InvoicingBlockRules();
    assert forall i :: 12 <= i < 16 ==> Step3Rules[i] == BillingRules[i - 12];
  }

  lemma CeoBlockRules()
    ensures |Step3Rules| == 16
    ensures forall i :: 0 <= i < 4 ==> Step3Rules[i].field == FieldName(Ceo, ContactFields[i])
    ensures forall i :: 0 <= i < 4 ==>
      Step3Rules[i].required == Some(Sections[0].title + " " + FieldCaption(ContactFields[i]) + " is required")
  {
    Step3RulesLayout();
    var sec := Sections[0];
    assert sec.required && sec.prefix == Ceo;
    var a := Step3Rules[..4];
    assert a == ContactRules(sec.title, Ceo, true);
    assert forall i :: 0 <= i < 4 ==> Step3Rules[i] == a[i];
  }

  lemma QualityBlockRules()
    ensures |Step3Rules| == 16
    ensures forall i :: 4 <= i < 8 ==> Step3Rules[i].field == FieldName(Quality, ContactFields[i - 4])
    ensures forall i :: 4 <= i < 8 ==> Step3Rules[i].required.None?
  {
    Step3RulesLayout();
    var sec := Sections[1];
    assert !sec.required && sec.prefix == Quality;
    var b := Step3Rules[4..8];
    assert b == ContactRules(sec.title, Quality, false);
    assert forall i :: 4 <= i < 8 ==> Step3Rules[i] == b[i - 4];
  }

  lemma InvoicingBlockRules()
    ensures |Step3Rules| == 16
    ensures forall i :: 8 <= i < 12 ==> Step3Rules[i].field == FieldName(Invoicing, ContactFields[i - 8])
    ensures forall i :: 8 <= i < 12 ==>
      Step3Rules[i].required == Some(Sections[2].title + " " + FieldCaption(ContactFields[i - 8]) + " is required")
  {
    Step3RulesLayout();
    var sec := Sections[2];
    assert sec.required && sec.prefix == Invoicing;
    var c := Step3Rules[8..12];
    assert c == ContactRules(sec.title, Invoicing, true);
    assert forall i :: 8 <= i < 12 ==> Step3Rules[i] == c[i - 8];
  }

  /** The rule list is the three blocks' rules, then the billing rules. */
  lemma Step3RulesLayout()
    ensures |Step3Rules| == 16
    ensures Step3Rules[..4] == SectionRules(Sections[0])
    ensures Step3Rules[4..8] == SectionRules(Sections[1])
    ensures Step3Rules[8..12] == SectionRules(Sections[2])
    ensures Step3Rules[12..] == BillingRules
  {
    var a, b, c := SectionRules(Sections[0]), SectionRules(Sections[1]), SectionRules(Sections[2]);
    var ab := a + b;
    var abc := ab + c;
    assert Step3Rules == abc + BillingRules;
    assert Step3Rules[..12] == abc;
    assert abc[..4] == a;
    assert abc[4..8] == b;
    assert abc[8..] == c;
  }

  /** The Director of Quality block may be left entirely blank. */
  lemma QualityBlockOptional(values: FormData)
    requires forall f :: IsEmpty(Field(values, FieldName(Quality, f)))
    ensures forall i :: 4 <= i < 8 ==> Passes(Step3Rules[i], values)
  {
    Step3RuleCoverage();
  }

  /** The primary-contact field each block field copies: the phone takes
      the work phone, not the cell phone. */
  function PrimarySource(f: ContactField): string {
    match f
    case FirstName => "firstName"
    case LastName => "lastName"
    case Phone => "workPhone"
    case Email => "email"
  }

  function BlockFieldNames(p: Prefix): seq<string> {
    [FieldName(p, FirstName), FieldName(p, LastName), FieldName(p, Phone), FieldName(p, Email)]
  }

  lemma SameBlockNamesDistinct(p: Prefix)
    ensures FieldName(p, FirstName) != FieldName(p, LastName)
    ensures FieldName(p, FirstName) != FieldName(p, Phone)
    ensures FieldName(p, FirstName) != FieldName(p, Email)
    ensures FieldName(p, LastName) != FieldName(p, Phone)
    ensures FieldName(p, LastName) != FieldName(p, Email)
    ensures FieldName(p, Phone) != FieldName(p, Email)
    ensures FlagName(p) !in BlockFieldNames(p)
  {
    NamesDistinct(p, FirstName, p, LastName);
    NamesDistinct(p, FirstName, p, Phone);
    NamesDistinct(p, FirstName, p, Email);
    NamesDistinct(p, LastName, p, Phone);
    NamesDistinct(p, LastName, p, Email);
    NamesDistinct(p, Phone, p, Email);
    NamesDistinct(p, FirstName, p, FirstName);
    NamesDistinct(p, LastName, p, LastName);
    NamesDistinct(p, Phone, p, Phone);
    NamesDistinct(p, Email, p, Email);
  }

  /** Blocks with different prefixes share no key. */
  lemma BlocksDisjoint(p: Prefix, q: Prefix, k: string)
    requires p != q && k in BlockFieldNames(p)
    ensures k !in BlockFieldNames(q) && k != FlagName(q)
  {
    var i :| 0 <= i < 4 && k == BlockFieldNames(p)[i];
    var f := ContactFields[i];
    assert k == FieldName(p, f);
    forall g ensures FieldName(p, f) != FieldName(q, g) {
      NamesDistinct(p, f, q, g);
    }
    NamesDistinct(p, f, q, f);
  }

  /** The four `setValue` calls, in order. */
  function AssignBlock(values: FormData, primary: FormData, p: Prefix): FormData {
    values[FieldName(p, FirstName) := Field(primary, "firstName")]
          [FieldName(p, LastName) := Field(primary, "lastName")]
          [FieldName(p, Phone) := Field(primary, "workPhone")]
          [FieldName(p, Email) := Field(primary, "email")]
  }

  lemma AssignBlockLookups(values: FormData, primary: FormData, p: Prefix)
    ensures var r := AssignBlock(values, primary, p);
      forall f :: FieldName(p, f) in r && r[FieldName(p, f)] == Field(primary, PrimarySource(f))
  {
    SameBlockNamesDistinct(p);
    var r := AssignBlock(values, primary, p);
    forall f ensures FieldName(p, f) in r && r[FieldName(p, f)] == Field(primary, PrimarySource(f)) {
      match f
      case FirstName =>
      case LastName =>
      case Phone =>
      case Email =>
    }
  }

  /** The copy: each block field gets the primary contact's value from the
      store; every other key keeps its value. */
  function CopyPrimary(values: FormData, primary: FormData, p: Prefix): (r: FormData)
    ensures forall k :: k in r <==> k in values || k in BlockFieldNames(p)
    ensures forall f :: FieldName(p, f) in r && r[FieldName(p, f)] == Field(primary, PrimarySource(f))
    ensures forall k :: k in values && k !in BlockFieldNames(p) ==> r[k] == values[k]
  {
    AssignBlockLookups(values, primary, p);
    AssignBlock(values, primary, p)
  }

  /** `handleSameAsPrimaryChange(prefix, checked)`: the flag takes the box's
      state; checking also copies the primary contact into the block,
      unchecking leaves the block's fields as they are. */
  function SameAsPrimaryChange(values: FormData, primary: FormData, p: Prefix, checked: bool): (r: FormData)
    ensures FlagName(p) in r && r[FlagName(p)] == Bool(checked)
    ensures checked ==> forall f :: FieldName(p, f) in r && r[FieldName(p, f)] == Field(primary, PrimarySource(f))
    ensures !checked ==> r == values[FlagName(p) := Bool(checked)]
    ensures forall k :: k in values && k != FlagName(p) && k !in BlockFieldNames(p) ==> k in r && r[k] == values[k]
  {
    SameBlockNamesDistinct(p);
    var flagged := values[FlagName(p) := Bool(checked)];
    if checked then CopyPrimary(flagged, primary, p) else flagged
  }

  predicate SameAsPrimary(values: FormData, p: Prefix) {
    Truthy(Field(values, FlagName(p)))
  }

  /** A key some checked block overwrites. */
  predicate Synced(values: FormData, k: string) {
    || (SameAsPrimary(values, Ceo) && k in BlockFieldNames(Ceo))
    || (SameAsPrimary(values, Quality) && k in BlockFieldNames(Quality))
    || (SameAsPrimary(values, Invoicing) && k in BlockFieldNames(Invoicing))
  }

  function SyncBlock(values: FormData, primary: FormData, p: Prefix, on: bool): FormData {
    if on then CopyPrimary(values, primary, p) else values
  }

  /** The effect `syncWithPrimary` runs for the three blocks: every block
      whose flag is set holds the primary contact; nothing else changes,
      the flags included. */
  function SyncWithPrimary(values: FormData, primary: FormData): (r: FormData)
    ensures forall p, f :: SameAsPrimary(values, p) ==>
      FieldName(p, f) in r && r[FieldName(p, f)] == Field(primary, PrimarySource(f))
    ensures forall k :: k in values && !Synced(values, k) ==> k in r && r[k] == values[k]
    ensures forall k :: k in r ==> k in values || Synced(values, k)
    ensures forall p :: Field(r, FlagName(p)) == Field(values, FlagName(p))
  {
    var a := SyncBlock(values, primary, Ceo, SameAsPrimary(values, Ceo));
    var b := SyncBlock(a, primary, Quality, SameAsPrimary(values, Quality));
    var r := SyncBlock(b, primary, Invoicing, SameAsPrimary(values, Invoicing));
    SyncFacts(values, primary, a, b, r);
    r
  }

  lemma SyncFacts(values: FormData, primary: FormData, a: FormData, b: FormData, r: FormData)
    requires a == SyncBlock(values, primary, Ceo, SameAsPrimary(values, Ceo))
    requires b == SyncBlock(a, primary, Quality, SameAsPrimary(values, Quality))
    requires r == SyncBlock(b, primary, Invoicing, SameAsPrimary(values, Invoicing))
    ensures forall p, f :: SameAsPrimary(values, p) ==>
      FieldName(p, f) in r && r[FieldName(p, f)] == Field(primary, PrimarySource(f))
    ensures forall k :: k in values && !Synced(values, k) ==> k in r && r[k] == values[k]
    ensures forall k :: k in r ==> k in values || Synced(values, k)
    ensures forall p :: Field(r, FlagName(p)) == Field(values, FlagName(p))
  {
    SyncCopies(values, primary, a, b, r);
    SyncFrame(values, primary, a, b, r);
    SyncFlagFields(values, primary, a, b, r);
  }

  /** Every checked block ends up holding the primary contact: the later
      blocks never write into an earlier one's keys. */
  lemma SyncCopies(values: FormData, primary: FormData, a: FormData, b: FormData, r: FormData)
    requires a == SyncBlock(values, primary, Ceo, SameAsPrimary(values, Ceo))
    requires b == SyncBlock(a, primary, Quality, SameAsPrimary(values, Quality))
    requires r == SyncBlock(b, primary, Invoicing, SameAsPrimary(values, Invoicing))
    ensures forall p, f :: SameAsPrimary(values, p) ==>
      FieldName(p, f) in r && r[FieldName(p, f)] == Field(primary, PrimarySource(f))
  {
    forall p, f | SameAsPrimary(values, p)
      ensures FieldName(p, f) in r && r[FieldName(p, f)] == Field(primary, PrimarySource(f))
    {
      var k := FieldName(p, f);
      assert k == BlockFieldNames(p)[FieldIndex(f)];
      forall q | q != p ensures k !in BlockFieldNames(q) {
        BlocksDisjoint(p, q, k);
      }
    }
  }

  /** Keys outside the checked blocks keep their values, and no other key
      appears. */
  lemma SyncFrame(values: FormData, primary: FormData, a: FormData, b: FormData, r: FormData)
    requires a == SyncBlock(values, primary, Ceo, SameAsPrimary(values, Ceo))
    requires b == SyncBlock(a, primary, Quality, SameAsPrimary(values, Quality))
    requires r == SyncBlock(b, primary, Invoicing, SameAsPrimary(values, Invoicing))
    ensures forall k :: k in values && !Synced(values, k) ==> k in r && r[k] == values[k]
    ensures forall k :: k in r ==> k in values || Synced(values, k)
  {
  }

  /** The flags are not among any block's fields, so none changes. */
  lemma SyncFlagFields(values: FormData, primary: FormData, a: FormData, b: FormData, r: FormData)
    requires a == SyncBlock(values, primary, Ceo, SameAsPrimary(values, Ceo))
    requires b == SyncBlock(a, primary, Quality, SameAsPrimary(values, Quality))
    requires r == SyncBlock(b, primary, Invoicing, SameAsPrimary(values, Invoicing))
    ensures forall p :: Field(r, FlagName(p)) == Field(values, FlagName(p))
  {
    forall p ensures Field(r, FlagName(p)) == Field(values, FlagName(p)) {
      FlagOutsideBlock(p, Ceo);
      FlagOutsideBlock(p, Quality);
      FlagOutsideBlock(p, Invoicing);
    }
  }

  lemma FlagOutsideBlock(p: Prefix, q: Prefix)
    ensures FlagName(p) !in BlockFieldNames(q)
  {
    forall i | 0 <= i < 4 ensures BlockFieldNames(q)[i] != FlagName(p) {
      NamesDistinct(q, ContactFields[i], p, FirstName);
    }
  }

  function FieldIndex(f: ContactField): (i: int)
    ensures 0 <= i < 4 && ContactFields[i] == f
  {
    match f
    case FirstName => 0
    case LastName => 1
    case Phone => 2
    case Email => 3
  }

  /** The block and field a synced key belongs to. */
  lemma SyncedWitness(values: FormData, k: string) returns (p: Prefix, f: ContactField)
    requires Synced(values, k)
    ensures SameAsPrimary(values, p) && k == FieldName(p, f)
  {
    p := if SameAsPrimary(values, Ceo) && k in BlockFieldNames(Ceo) then Ceo
      else if SameAsPrimary(values, Quality) && k in BlockFieldNames(Quality) then Quality
      else Invoicing;
    var i :| 0 <= i < 4 && k == BlockFieldNames(p)[i];
    f := ContactFields[i];
  }

  /** The effect keeps every flag, so a second run overwrites the same
      blocks as the first. */
  lemma SyncKeepsFlags(values: FormData, primary: FormData)
    ensures forall k :: Synced(SyncWithPrimary(values, primary), k) == Synced(values, k)
  {
    var once := SyncWithPrimary(values, primary);
    assert SameAsPrimary(once, Ceo) == SameAsPrimary(values, Ceo);
    assert SameAsPrimary(once, Quality) == SameAsPrimary(values, Quality);
    assert SameAsPrimary(once, Invoicing) == SameAsPrimary(values, Invoicing);
  }

  lemma SyncIdempotentAt(values: FormData, primary: FormData, once: FormData, twice: FormData, k: string)
    requires once == SyncWithPrimary(values, primary) && twice == SyncWithPrimary(once, primary)
    ensures k in twice <==> k in once
    ensures k in twice ==> twice[k] == once[k]
  {
    SyncKeepsFlags(values, primary);
    if Synced(once, k) {
      var p, f := SyncedWitness(once, k);
      assert SameAsPrimary(values, p);
    }
  }

  /** Running the effect again changes nothing. */
  lemma SyncIdempotent(values: FormData, primary: FormData)
    ensures SyncWithPrimary(SyncWithPrimary(values, primary), primary) == SyncWithPrimary(values, primary)
  {
    var once := SyncWithPrimary(values, primary);
    var twice := SyncWithPrimary(once, primary);
    forall k ensures (k in twice <==> k in once) && (k in twice ==> twice[k] == once[k]) {
      SyncIdempotentAt(values, primary, once, twice, k);
    }
    assert twice.Keys == once.Keys;
  }

  /** Checking a box and the effect that follows it agree on the block. */
  lemma CheckThenSyncAgree(values: FormData, primary: FormData, p: Prefix, f: ContactField)
    ensures var checked := SameAsPrimaryChange(values, primary, p, true);
      SyncWithPrimary(checked, primary)[FieldName(p, f)] == checked[FieldName(p, f)]
  {
    var checked := SameAsPrimaryChange(values, primary, p, true);
    assert SameAsPrimary(checked, p);
  }

  /** While a block is checked, a new primary first name reaches it on the
      next run of the effect. */
  lemma PrimaryEditPropagates(values: FormData, primary: FormData, p: Prefix, name: Value)
    requires SameAsPrimary(values, p)
    ensures SyncWithPrimary(values, primary["firstName" := name])[FieldName(p, FirstName)] == name
  {
  }

  /** A CEO block set to "same as primary" takes the primary work phone.
      Step 1 accepts a formatted one such as `(555) 123-4567`, but the
      block's phone rule wants exactly ten digits: the copied value shows
      the phone message and Continue leaves the store as it was. */
  lemma CopiedWorkPhoneCanFailContactRule(s: Store, values: FormData, primary: FormData)
    requires SameAsPrimary(values, Ceo)
    requires Field(primary, "workPhone") == Str("(555) 123-4567")
    ensures Step1.Step1Rules[5].field == "workPhone" && Passes(Step1.Step1Rules[5], primary)
    ensures var synced := SyncWithPrimary(values, primary);
      Step3Rules[2].field == FieldName(Ceo, Phone)
      && RuleError(Step3Rules[2], Field(synced, FieldName(Ceo, Phone))) == Some("Phone number must be exactly 10 digits")
      && !AllPass(Step3Rules, synced)
      && Step3Submit(s, synced) == s
  {
    FormattedWorkPhone();
    Step1AcceptsPhone(primary);
    SyncedCeoPhone(values, primary);
    CeoPhoneBlocks(s, SyncWithPrimary(values, primary));
  }

  /** Step 1's work-phone rule lets the formatted number through. */
  lemma Step1AcceptsPhone(primary: FormData)
    requires Field(primary, "workPhone") == Str("(555) 123-4567")
    requires WorkPhonePattern("(555) 123-4567")
    ensures Step1.Step1Rules[5].field == "workPhone" && Passes(Step1.Step1Rules[5], primary)
  {
  }

  /** The formatted number in the CEO phone field fails its rule and
      blocks Continue. */
  lemma CeoPhoneBlocks(s: Store, synced: FormData)
    requires Field(synced, FieldName(Ceo, Phone)) == Str("(555) 123-4567")
    requires !PhonePattern("(555) 123-4567")
    ensures Step3Rules[2].field == FieldName(Ceo, Phone)
    ensures RuleError(Step3Rules[2], Field(synced, FieldName(Ceo, Phone))) == Some("Phone number must be exactly 10 digits")
    ensures !AllPass(Step3Rules, synced)
    ensures Step3Submit(s, synced) == s
  {
    CeoPhoneRule();
    assert !Passes(Step3Rules[2], synced);
  }

  /** `(555) 123-4567` passes the work-phone pattern, not the ten-digit one. */
  lemma FormattedWorkPhone()
    ensures WorkPhonePattern("(555) 123-4567") && !PhonePattern("(555) 123-4567")
  {
    var phone := "(555) 123-4567";
    assert WorkPhoneMatch(phone, 0, 0);
    assert !IsDigit(phone[0]);
  }

  /** A checked CEO block's phone is the primary work phone. */
  lemma SyncedCeoPhone(values: FormData, primary: FormData)
    requires SameAsPrimary(values, Ceo)
    ensures Field(SyncWithPrimary(values, primary), FieldName(Ceo, Phone)) == Field(primary, "workPhone")
  {
    assert PrimarySource(Phone) == "workPhone";
  }

  /** The third rule is the CEO block's phone rule. */
  lemma CeoPhoneRule()
    ensures Step3Rules[2].field == FieldName(Ceo, Phone)
    ensures Step3Rules[2].pattern == Some((TenDigits, "Phone number must be exactly 10 digits"))
  {
    Step3RulesLayout();
    var a := Step3Rules[..4];
    assert a == ContactRules(Sections[0].title, Ceo, true);
    assert a[2] == Step3Rules[2];
  }

  /** A non-empty ZIP code that is not five digits blocks Continue with
      the ZIP message. */
  lemma InvalidZipBlocks(s: Store, values: FormData, zip: string)
    requires Field(values, "zipCode") == Str(zip) && zip != "" && !ZipCodePattern(zip)
    ensures Step3Rules[15].field == "zipCode"
    ensures RuleError(Step3Rules[15], Field(values, "zipCode")) == Some("ZIP Code must be exactly 5 digits")
    ensures Step3Submit(s, values) == s
  {
    Step3RulesLayout();
    assert Step3Rules[15] == BillingRules[3];
    assert !Passes(Step3Rules[15], values);
  }

  /** The city `onKeyDown` filter: a key is suppressed when its name
      contains a digit. */
  predicate CityKeyBlocked(key: string) {
    ContainsDigit(key)
  }

  /** Typed characters are blocked exactly when they are digits, and a
      city holding a digit fails the city pattern anyway. */
  lemma CityKeyFilter(c: char, city: string)
    ensures CityKeyBlocked([c]) <==> IsDigit(c)
    ensures ContainsDigit(city) ==> !LettersOnlyPattern(city)
  {
    if IsDigit(c) {
      assert [c][0] == c;
    }
    if ContainsDigit(city) {
      LettersOnlyRejectsDigits(city);
    }
  }

  /** `maxLength` of the ZIP input; its key filter is the phone's. */
  const ZipMaxLength := 5

  /** Continue (`onSubmit`): merge the step's values and move on, only when
      every rule passes. */
  function Step3Submit(s: Store, values: FormData): (r: Store)
    ensures AllPass(Step3Rules, values) ==> r == NextStep(UpdateFormData(s, values))
    ensures !AllPass(Step3Rules, values) ==> r == s
  {
    Submit(s, values, Step3Rules)
  }

  /** A required block left without a first name blocks Continue. */
  lemma MissingCeoNameBlocks(s: Store, values: FormData)
    requires IsEmpty(Field(values, FieldName(Ceo, FirstName)))
    ensures Step3Submit(s, values) == s
  {
    CeoBlockRules();
    var first := Step3Rules[0];
    assert first.field == FieldName(Ceo, FirstName);
    assert first.required.Some?;
    assert RuleError(first, Field(values, first.field)) == first.required;
    assert !AllPass(Step3Rules, values);
  }
}
