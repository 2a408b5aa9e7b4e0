/** Step 6, review and submit: the CSV export's rows and text, the phone
    formatting of the printable summary, the collapsible sections with
    their Edit links, and the certification gate on Submit. */
module Step6 {
  import opened Text
  import opened Values
  import opened ServiceMaps
  import opened FormStore
  import Csv

  // ---------------------------------------------------------------------
  // Export rows

  const Header: seq<string> := ["Section", "Field", "Value"]

  const NotProvided := "Not Provided"
  const NotSelected := "Not Selected"

  /** `formData[key] || placeholder`, as a cell. */
  function Cell(data: FormData, key: string, placeholder: string): string {
    OrElse(Field(data, key), placeholder)
  }

  /** `${first || ""} ${last || ""}`: no placeholder, just the space. */
  function NameCell(data: FormData, first: string, last: string): string {
    Cell(data, first, "") + " " + Cell(data, last, "")
  }

  /** `${street}, ${city}, ${state} ${zip}`, each part `|| ""`. */
  function AddressCell(data: FormData): string {
    Cell(data, "streetAddress", "") + ", " + Cell(data, "city", "") + ", "
      + Cell(data, "state", "") + " " + Cell(data, "zipCode", "")
  }

  /** The site configuration label for the location type. */
  function SiteConfiguration(locationType: Value): (shown: string)
    ensures locationType == Str("single") ==> shown == "Single Location"
    ensures locationType == Str("multiple") ==> shown == "Multiple Locations"
    ensures locationType != Str("single") && locationType != Str("multiple") ==> shown == NotSelected
  {
    if locationType == Str("single") then "Single Location"
    else if locationType == Str("multiple") then "Multiple Locations"
    else NotSelected
  }

  /** `f.name || f`: a descriptor without a name prints as an object. */
  function FileLabel(f: FileDescriptor): string {
    if f.name != "" then f.name else "[object Object]"
  }

  function FileLabels(files: seq<FileDescriptor>): (r: seq<string>)
    ensures |r| == |files|
    ensures forall i :: 0 <= i < |files| ==> r[i] == FileLabel(files[i])
  {
    seq(|files|, i requires 0 <= i < |files| => FileLabel(files[i]))
  }

  function FilesCell(data: FormData): string {
    var files := FilesOf(Field(data, "uploadedFiles"));
    if |files| > 0 then Join("; ", FileLabels(files)) else "No files uploaded"
  }

  /** The keys of `servicesData` whose entry is truthy, in insertion
      order. Every entry is an object, so that is every key. */
  function SelectedServices(data: FormData): seq<string> {
    Keys(ServicesOf(Field(data, "servicesData")))
  }

  function ServicesCell(data: FormData): string {
    var keys := SelectedServices(data);
    if |keys| > 0 then Join("; ", keys) else "No services selected"
  }

  function StandardsCell(data: FormData): string {
    var standards := ListOf(Field(data, "selectedStandards"));
    if |standards| > 0 then Join("; ", standards) else "No standards selected"
  }

  /** The number of rows every export has. */
  const FixedRowCount := 26

  /** Row `i` of the rows every export has: the header, then one row per
      field in the order of the review page. */
  function FixedRow(data: FormData, i: nat): (row: seq<string>)
    requires i < FixedRowCount
    ensures |row| == 3
  {
    match i
    case 0 => Header
    case 1 => ["Basic Information", "Legal Entity Name", Cell(data, "legalEntityName", NotProvided)]
    case 2 => ["Basic Information", "d/b/a Name", Cell(data, "doingBusinessAs", NotProvided)]
    case 3 => ["Basic Information", "Primary Contact Name", NameCell(data, "firstName", "lastName")]
    case 4 => ["Basic Information", "Primary Contact Title", Cell(data, "title", NotProvided)]
    case 5 => ["Basic Information", "Work Phone", Cell(data, "workPhone", NotProvided)]
    case 6 => ["Basic Information", "Cell Phone", Cell(data, "cellPhone", NotProvided)]
    case 7 => ["Basic Information", "Email", Cell(data, "email", NotProvided)]
    case 8 => ["Basic Information", "Email Verified", if Truthy(Field(data, "emailVerified")) then "Yes" else "No"]
    case 9 => ["Facility Details", "Facility Type", Cell(data, "facilityType", NotSelected)]
    case 10 => ["Leadership Contacts", "CEO Name", NameCell(data, "ceoFirstName", "ceoLastName")]
    case 11 => ["Leadership Contacts", "CEO Phone", Cell(data, "ceoPhone", NotProvided)]
    case 12 => ["Leadership Contacts", "CEO Email", Cell(data, "ceoEmail", NotProvided)]
    case 13 => ["Leadership Contacts", "Director of Quality Name", NameCell(data, "qualityFirstName", "qualityLastName")]
    case 14 => ["Leadership Contacts", "Director of Quality Phone", Cell(data, "qualityPhone", NotProvided)]
    case 15 => ["Leadership Contacts", "Director of Quality Email", Cell(data, "qualityEmail", NotProvided)]
    case 16 => ["Leadership Contacts", "Invoicing Contact Name", NameCell(data, "invoicingFirstName", "invoicingLastName")]
    case 17 => ["Leadership Contacts", "Invoicing Contact Phone", Cell(data, "invoicingPhone", NotProvided)]
    case 18 => ["Leadership Contacts", "Invoicing Contact Email", Cell(data, "invoicingEmail", NotProvided)]
    case 19 => ["Leadership Contacts", "Billing Address", AddressCell(data)]
    case 20 => ["Site Information", "Site Configuration", SiteConfiguration(Field(data, "locationType"))]
    case 21 => ["Site Information", "Uploaded Files", FilesCell(data)]
    case 22 => ["Services & Certifications", "Services Provided", ServicesCell(data)]
    case 23 => ["Services & Certifications", "Standards to Apply", StandardsCell(data)]
    case 24 => ["Services & Certifications", "Date of Application", Cell(data, "applicationDate", NotProvided)]
    case _ => ["Services & Certifications", "Stroke Certification Expiry", Cell(data, "strokeCertificationExpiry", NotProvided)]
  }

  function FixedRows(data: FormData): (rows: seq<seq<string>>)
    ensures |rows| == FixedRowCount
    ensures forall i :: 0 <= i < FixedRowCount ==> rows[i] == FixedRow(data, i)
  {
    seq(FixedRowCount, i requires 0 <= i < FixedRowCount => FixedRow(data, i))
  }

  /** A row for a date list only when it holds a date. */
  function DateRow(data: FormData, key: string, caption: string): (r: seq<seq<string>>)
    ensures |r| == (if |ListOf(Field(data, key))| > 0 then 1 else 0)
    ensures |r| == 1 ==> r[0] == ["Services & Certifications", caption, Join("; ", ListOf(Field(data, key)))]
  {
    var dates := ListOf(Field(data, key));
    if |dates| > 0 then [["Services & Certifications", caption, Join("; ", dates)]] else []
  }

  /** `csvData` as `handleExportCSV` builds it: the fixed rows, then a
      row per non-empty date list. */
  function ExportRows(data: FormData): (rows: seq<seq<string>>)
    ensures |rows| >= FixedRowCount
    ensures forall i :: 0 <= i < FixedRowCount ==> rows[i] == FixedRow(data, i)
    ensures rows[FixedRowCount..] == DateRow(data, "thrombolyticDates", "Thrombolytic Dates")
                                    + DateRow(data, "thrombectomyDates", "Thrombectomy Dates")
    ensures forall i :: 0 <= i < |rows| ==> |rows[i]| == 3
  {
    var fixed := FixedRows(data);
    var a := DateRow(data, "thrombolyticDates", "Thrombolytic Dates");
    var b := DateRow(data, "thrombectomyDates", "Thrombectomy Dates");
    assert (fixed + a + b)[FixedRowCount..] == a + b;
    fixed + a + b
  }

  /** The file text: the rows, CSV-encoded. */
  function ExportCsv(data: FormData): string {
    Csv.Encode(ExportRows(data))
  }

  /** Whatever the record holds, reading the exported text back with a
      CSV decoder gives exactly the rows, header first. */
  lemma ExportRoundTrip(data: FormData)
    ensures Csv.Decode(ExportCsv(data)) == Some(ExportRows(data))
    ensures Csv.Decode(ExportCsv(data)).value[0] == Header
  {
    Csv.EncodeDecodeRoundTrip(ExportRows(data));
  }

  /** The placeholders: an empty text field shows "Not Provided" (the
      facility type "Not Selected"), a filled one its text, an unset email
      verification "No", and an empty name just the separating space. */
  lemma ExportPlaceholders(data: FormData)
    ensures !Truthy(Field(data, "legalEntityName")) ==> ExportRows(data)[1][2] == NotProvided
    ensures forall s :: Field(data, "legalEntityName") == Str(s) && s != "" ==> ExportRows(data)[1][2] == s
    ensures !Truthy(Field(data, "facilityType")) ==> ExportRows(data)[9][2] == NotSelected
    ensures ExportRows(data)[8][2] == (if Truthy(Field(data, "emailVerified")) then "Yes" else "No")
    ensures !Truthy(Field(data, "firstName")) && !Truthy(Field(data, "lastName")) ==> ExportRows(data)[3][2] == " "
  {
    var rows := ExportRows(data);
    assert rows[1] == FixedRow(data, 1);
    assert rows[3] == FixedRow(data, 3);
    assert rows[8] == FixedRow(data, 8);
    assert rows[9] == FixedRow(data, 9);
  }

  /** The list cells: each list joined by "; " in its own order, or the
      list's "No ..." line when it is empty. */
  lemma ExportFilesCell(data: FormData)
    ensures |FilesOf(Field(data, "uploadedFiles"))| == 0 ==> ExportRows(data)[21][2] == "No files uploaded"
    ensures |FilesOf(Field(data, "uploadedFiles"))| > 0
      ==> ExportRows(data)[21][2] == Join("; ", FileLabels(FilesOf(Field(data, "uploadedFiles"))))
  {
    var row := FixedRow(data, 21);
    assert row[2] == FilesCell(data);
    assert ExportRows(data)[21] == row;
  }

  lemma ExportServicesCell(data: FormData)
    ensures |SelectedServices(data)| == 0 ==> ExportRows(data)[22][2] == "No services selected"
    ensures |SelectedServices(data)| > 0 ==> ExportRows(data)[22][2] == Join("; ", SelectedServices(data))
  {
    var row := FixedRow(data, 22);
    assert row[2] == ServicesCell(data);
    assert ExportRows(data)[22] == row;
  }

  lemma ExportStandardsCell(data: FormData)
    ensures |ListOf(Field(data, "selectedStandards"))| == 0 ==> ExportRows(data)[23][2] == "No standards selected"
    ensures |ListOf(Field(data, "selectedStandards"))| > 0
      ==> ExportRows(data)[23][2] == Join("; ", ListOf(Field(data, "selectedStandards")))
  {
    var row := FixedRow(data, 23);
    assert row[2] == StandardsCell(data);
    assert ExportRows(data)[23] == row;
  }

  /** The date rows: both lists empty means exactly the fixed rows; a
      non-empty thrombolytic list is the first row after them. */
  lemma ExportDateRows(data: FormData)
    ensures |ListOf(Field(data, "thrombolyticDates"))| == 0 && |ListOf(Field(data, "thrombectomyDates"))| == 0
      ==> |ExportRows(data)| == FixedRowCount
    ensures |ListOf(Field(data, "thrombolyticDates"))| > 0
      ==> |ExportRows(data)| > FixedRowCount
          && ExportRows(data)[FixedRowCount]
             == ["Services & Certifications", "Thrombolytic Dates", Join("; ", ListOf(Field(data, "thrombolyticDates")))]
  {
    var rows := ExportRows(data);
    if |rows| > FixedRowCount {
      assert rows[FixedRowCount..][0] == rows[FixedRowCount];
    }
  }

  /** The site configuration row follows the chosen location type. */
  lemma ExportSiteConfiguration(data: FormData)
    ensures Field(data, "locationType") == Str("multiple") ==> ExportRows(data)[20][2] == "Multiple Locations"
    ensures Field(data, "locationType") == Str("single") ==> ExportRows(data)[20][2] == "Single Location"
    ensures !Truthy(Field(data, "locationType")) ==> ExportRows(data)[20][2] == NotSelected
  {
    var row := FixedRow(data, 20);
    assert row[2] == SiteConfiguration(Field(data, "locationType"));
    assert ExportRows(data)[20] == row;
  }

  // ---------------------------------------------------------------------
  // Phone formatting

  /** `(abc) def-ghij` for a ten-character string. */
  function FormatTen(s: string): (r: string)
    requires |s| == 10
    ensures |r| == 14
    ensures r[0] == '(' && r[4] == ')' && r[5] == ' ' && r[9] == '-'
  {
    "(" + s[..3] + ") " + s[3..6] + "-" + s[6..]
  }

  /** `formatPhone`: ten characters are laid out as above; any other
      non-empty text is returned as it is, and no phone at all reads
      "Not Provided". */
  function FormatPhone(phone: Value): (r: string)
    ensures phone.Str? && |phone.s| == 10 ==> r == FormatTen(phone.s)
    ensures phone.Str? && phone.s != "" && |phone.s| != 10 ==> r == phone.s
    ensures !Truthy(phone) ==> r == NotProvided
  {
    if phone.Str? && |phone.s| == 10 then FormatTen(phone.s) else OrElse(phone, NotProvided)
  }

  /** The digits back out of a formatted phone. */
  function UnformatTen(r: string): string
    requires |r| == 14
  {
    r[1..4] + r[6..9] + r[10..]
  }

  lemma FormatTenRoundTrip(s: string)
    requires |s| == 10
    ensures UnformatTen(FormatTen(s)) == s
  {
    var r := FormatTen(s);
    assert r[1..4] == s[..3];
    assert r[6..9] == s[3..6];
    assert r[10..] == s[6..];
    assert s[..3] + s[3..6] + s[6..] == s;
  }

  // ---------------------------------------------------------------------
  // Sections, Edit and Submit

  datatype ReviewSection = BasicInfo | FacilityDetails | LeadershipContacts | SiteInformation | ServicesCertifications

  function SectionKey(sec: ReviewSection): string {
    match sec
    case BasicInfo => "basicInfo"
    case FacilityDetails => "facilityDetails"
    case LeadershipContacts => "leadershipContacts"
    case SiteInformation => "siteInformation"
    case ServicesCertifications => "servicesCertifications"
  }

  /** `collapsedSections` starts with every section expanded. */
  const InitialCollapsed: map<string, bool> := map[
    "basicInfo" := false,
    "facilityDetails" := false,
    "leadershipContacts" := false,
    "siteInformation" := false,
    "servicesCertifications" := false
  ]

  lemma AllSectionsStartExpanded(sec: ReviewSection)
    ensures SectionKey(sec) in InitialCollapsed && !InitialCollapsed[SectionKey(sec)]
  {
  }

  /** `toggleSection(k)`: `k` takes `!prev[k]` (a missing key reads as
      collapsed-false, so it becomes true); every other section keeps its
      state. */
  function ToggleSection(collapsed: map<string, bool>, k: string): (r: map<string, bool>)
    ensures k in r && r[k] == !(k in collapsed && collapsed[k])
    ensures forall j :: j in collapsed && j != k ==> j in r && r[j] == collapsed[j]
    ensures r.Keys == collapsed.Keys + {k}
  {
    collapsed[k := !(k in collapsed && collapsed[k])]
  }

  lemma ToggleTwice(collapsed: map<string, bool>, k: string)
    requires k in collapsed
    ensures ToggleSection(ToggleSection(collapsed, k), k) == collapsed
  {
  }

  /** The step whose answers a section shows, which its Edit button opens. */
  function EditStep(sec: ReviewSection): (n: int)
    ensures ValidStep(n) && n < LastStep
  {
    match sec
    case BasicInfo => 1
    case FacilityDetails => 2
    case LeadershipContacts => 3
    case SiteInformation => 4
    case ServicesCertifications => 5
  }

  /** Edit: `goToStep` to the section's step; the answers stay. */
  function Edit(s: Store, sec: ReviewSection): (r: Store)
    ensures r.currentStep == EditStep(sec)
    ensures r.data == s.data
  {
    GoToStep(s, EditStep(sec))
  }

  /** Each section's Edit opens a different step. */
  lemma EditTargetsDistinct(a: ReviewSection, b: ReviewSection)
    ensures EditStep(a) == EditStep(b) <==> a == b
  {
  }

  /** Submit: disabled until the certification box is checked; once
      enabled it hands over the complete record as the payload. */
  function Submit(data: FormData, certified: bool): (payload: Option<FormData>)
    ensures payload.Some? <==> certified
    ensures payload.Some? ==> payload.value == data
  {
    if certified then Some(data) else None
  }
}
