/** The fixed lookup tables of the application: states, facility types,
    the service catalogue, the step list and the date-list caps. */
module Constants {

  datatype StateOption = StateOption(code: string, name: string)

  /** `US_STATES`, the options of the billing-address state selector, in
      their listed order. (Written as five blocks of ten so that the
      verifier can index into it cheaply.) */
  const US_STATES: seq<StateOption> := [
    StateOption("AL", "Alabama"),
    StateOption("AK", "Alaska"),
    StateOption("AZ", "Arizona"),
    StateOption("AR", "Arkansas"),
    StateOption("CA", "California"),
    StateOption("CO", "Colorado"),
    StateOption("CT", "Connecticut"),
    StateOption("DE", "Delaware"),
    StateOption("FL", "Florida"),
    StateOption("GA", "Georgia")
  ] + [
    StateOption("HI", "Hawaii"),
    StateOption("ID", "Idaho"),
    StateOption("IL", "Illinois"),
    StateOption("IN", "Indiana"),
    StateOption("IA", "Iowa"),
    StateOption("KS", "Kansas"),
    StateOption("KY", "Kentucky"),
    StateOption("LA", "Louisiana"),
    StateOption("ME", "Maine"),
    StateOption("MD", "Maryland")
  ] + [
    StateOption("MA", "Massachusetts"),
    StateOption("MI", "Michigan"),
    StateOption("MN", "Minnesota"),
    StateOption("MS", "Mississippi"),
    StateOption("MO", "Missouri"),
    StateOption("MT", "Montana"),
    StateOption("NE", "Nebraska"),
    StateOption("NV", "Nevada"),
    StateOption("NH", "New Hampshire"),
    StateOption("NJ", "New Jersey")
  ] + [
    StateOption("NM", "New Mexico"),
    StateOption("NY", "New York"),
    StateOption("NC", "North Carolina"),
    StateOption("ND", "North Dakota"),
    StateOption("OH", "Ohio"),
    StateOption("OK", "Oklahoma"),
    StateOption("OR", "Oregon"),
    StateOption("PA", "Pennsylvania"),
    StateOption("RI", "Rhode Island"),
    StateOption("SC", "South Carolina")
  ] + [
    StateOption("SD", "South Dakota"),
    StateOption("TN", "Tennessee"),
    StateOption("TX", "Texas"),
    StateOption("UT", "Utah"),
    StateOption("VT", "Vermont"),
    StateOption("VA", "Virginia"),
    StateOption("WA", "Washington"),
    StateOption("WV", "West Virginia"),
    StateOption("WI", "Wisconsin"),
    StateOption("WY", "Wyoming")
  ]

  /** Position of a two-letter code in `US_STATES`, or -1: an index
      function of this model only, behind `StateCodesDistinct` (every code
      leads back to its own entry, so no two entries share one). */
  function StatePosition(code: string): (i: int)
    ensures -1 <= i < 50
  {
    if |code| != 2 then -1
    else if code[0] == 'A' && code[1] == 'L' then 0
    else if code[0] == 'A' && code[1] == 'K' then 1
    else if code[0] == 'A' && code[1] == 'Z' then 2
    else if code[0] == 'A' && code[1] == 'R' then 3
    else if code[0] == 'C' && code[1] == 'A' then 4
    else if code[0] == 'C' && code[1] == 'O' then 5
    else if code[0] == 'C' && code[1] == 'T' then 6
    else if code[0] == 'D' && code[1] == 'E' then 7
    else if code[0] == 'F' && code[1] == 'L' then 8
    else if code[0] == 'G' && code[1] == 'A' then 9
    else if code[0] == 'H' && code[1] == 'I' then 10
    else if code[0] == 'I' && code[1] == 'D' then 11
    else if code[0] == 'I' && code[1] == 'L' then 12
    else if code[0] == 'I' && code[1] == 'N' then 13
    else if code[0] == 'I' && code[1] == 'A' then 14
    else if code[0] == 'K' && code[1] == 'S' then 15
    else if code[0] == 'K' && code[1] == 'Y' then 16
    else if code[0] == 'L' && code[1] == 'A' then 17
    else if code[0] == 'M' && code[1] == 'E' then 18
    else if code[0] == 'M' && code[1] == 'D' then 19
    else if code[0] == 'M' && code[1] == 'A' then 20
    else if code[0] == 'M' && code[1] == 'I' then 21
    else if code[0] == 'M' && code[1] == 'N' then 22
    else if code[0] == 'M' && code[1] == 'S' then 23
    else if code[0] == 'M' && code[1] == 'O' then 24
    else if code[0] == 'M' && code[1] == 'T' then 25
    else if code[0] == 'N' && code[1] == 'E' then 26
    else if code[0] == 'N' && code[1] == 'V' then 27
    else if code[0] == 'N' && code[1] == 'H' then 28
    else if code[0] == 'N' && code[1] == 'J' then 29
    else if code[0] == 'N' && code[1] == 'M' then 30
    else if code[0] == 'N' && code[1] == 'Y' then 31
    else if code[0] == 'N' && code[1] == 'C' then 32
    else if code[0] == 'N' && code[1] == 'D' then 33
    else if code[0] == 'O' && code[1] == 'H' then 34
    else if code[0] == 'O' && code[1] == 'K' then 35
    else if code[0] == 'O' && code[1] == 'R' then 36
    else if code[0] == 'P' && code[1] == 'A' then 37
    else if code[0] == 'R' && code[1] == 'I' then 38
    else if code[0] == 'S' && code[1] == 'C' then 39
    else if code[0] == 'S' && code[1] == 'D' then 40
    else if code[0] == 'T' && code[1] == 'N' then 41
    else if code[0] == 'T' && code[1] == 'X' then 42
    else if code[0] == 'U' && code[1] == 'T' then 43
    else if code[0] == 'V' && code[1] == 'T' then 44
    else if code[0] == 'V' && code[1] == 'A' then 45
    else if code[0] == 'W' && code[1] == 'A' then 46
    else if code[0] == 'W' && code[1] == 'V' then 47
    else if code[0] == 'W' && code[1] == 'I' then 48
    else if code[0] == 'W' && code[1] == 'Y' then 49
    else -1
  }

  /** Each option's code leads back to that option. */
  lemma StatePositionOfOption(i: int)
    requires 0 <= i < |US_STATES|
    ensures StatePosition(US_STATES[i].code) == i
  {
    if i < 25 {
      if i < 15 {
        if i < 10 {
          if i < 5 {
            assert i == 0 || i == 1 || i == 2 || i == 3 || i == 4;
          } else {
            assert i == 5 || i == 6 || i == 7 || i == 8 || i == 9;
          }
        } else {
          assert i == 10 || i == 11 || i == 12 || i == 13 || i == 14;
        }
      } else {
        if i < 20 {
          assert i == 15 || i == 16 || i == 17 || i == 18 || i == 19;
        } else {
          assert i == 20 || i == 21 || i == 22 || i == 23 || i == 24;
        }
      }
    } else {
      if i < 40 {
        if i < 35 {
          if i < 30 {
            assert i == 25 || i == 26 || i == 27 || i == 28 || i == 29;
          } else {
            assert i == 30 || i == 31 || i == 32 || i == 33 || i == 34;
          }
        } else {
          assert i == 35 || i == 36 || i == 37 || i == 38 || i == 39;
        }
      } else {
        if i < 45 {
          assert i == 40 || i == 41 || i == 42 || i == 43 || i == 44;
        } else {
          assert i == 45 || i == 46 || i == 47 || i == 48 || i == 49;
        }
      }
    }
  }

  /** Fifty options with pairwise distinct codes. */
  lemma StateCodesDistinct()
    ensures |US_STATES| == 50
    ensures forall i, j :: 0 <= i < j < |US_STATES| ==> US_STATES[i].code != US_STATES[j].code
  {
    forall i, j | 0 <= i < j < |US_STATES| ensures US_STATES[i].code != US_STATES[j].code {
      StatePositionOfOption(i);
      StatePositionOfOption(j);
    }
  }

  /** `FACILITY_TYPES`, the Step 2 choices. */
  const FACILITY_TYPES: seq<string> := [
    "Short-Term Acute Care",
    "Long-Term Acute Care",
    "Critical Access",
    "Children's",
    "Free-Standing Psychiatric",
    "Other"
  ]

  lemma FacilityTypesDistinct()
    ensures |FACILITY_TYPES| == 6
    ensures forall i, j :: 0 <= i < j < |FACILITY_TYPES| ==> FACILITY_TYPES[i] != FACILITY_TYPES[j]
  {
    forall i, j | 0 <= i < j < |FACILITY_TYPES| ensures FACILITY_TYPES[i] != FACILITY_TYPES[j] {
      assert |FACILITY_TYPES[i]| != |FACILITY_TYPES[j]|;
    }
  }

  /** `SERVICE_CATEGORIES`: category names with their services, in order.
      Step 5 renders an identical inline copy of this table. */
  const SERVICE_CATEGORIES: seq<(string, seq<string>)> := [
    ("Emergency & Critical Care", [
      "Emergency Department",
      "Neonatal Intensive Care Services",
      "Pediatric Intensive Care Services"
    ]),
    ("Cardiac Services", ["Cardiac Catheterization Laboratory", "Open Heart"]),
    ("Diagnostic Services", [
      "Magnetic Resonance Imaging (MRI)",
      "Diagnostic Radioisotope Facility",
      "Lithotripsy"
    ])
  ]

  /** `SERVICE_TABS`, the Step 5 tab captions. */
  const SERVICE_TABS: seq<string> :=
    ["All Services", "Clinical", "Surgical", "Diagnostic", "Rehabilitation", "Specialty"]

  datatype StepInfo = StepInfo(step: int, title: string, stepLabel: string)

  /** `FORM_STEPS`, the step list behind the progress bar. */
  const FORM_STEPS: seq<StepInfo> := [
    StepInfo(1, "New DNV Quote Request", "DNV Quote Request"),
    StepInfo(2, "Facility Details", "Facility Details"),
    StepInfo(3, "Leadership Contacts", "Leadership Contacts"),
    StepInfo(4, "Site Information", "Site Information"),
    StepInfo(5, "Services & Certifications", "Services & Certifications"),
    StepInfo(6, "Review & Submit", "Review & Submit")
  ]

  /** The step list numbers its entries 1..6 in order. */
  lemma FormStepsNumbered()
    ensures |FORM_STEPS| == 6
    ensures forall i :: 0 <= i < |FORM_STEPS| ==> FORM_STEPS[i].step == i + 1
  {
  }

  /** `DATE_LIMITS`. */
  const THROMBOLYTIC_MAX := 25
  const THROMBECTOMY_MAX := 15
}
