# Medlaunch intake form: a Dafny model of its state logic

This project models the state logic of a six-step web form that collects a
healthcare facility's request for a DNV accreditation quote. It covers:

- the shared form store, with its step counter and its shallow-merge record update;
- the validation patterns and the constant tables;
- the handlers of Steps 1, 3, 4 and 5, as pure functions from a record to a record;
- the review page's CSV export, together with a decoder that reads it back;
- the progress bar's classification of steps.

The form record is a `map<string, Value>`. `Value` includes JavaScript's
`undefined`, which lets `x || fallback`, truthiness and `String(x)` be
written out. JavaScript objects whose key order matters, such as
`servicesData`, are association lists that keep insertion order, which is
ECMAScript's key order for keys that are not array indices; every service
name the form offers is such a key. Each
module follows one source file:

| module | file |
|---|---|
| `Text`, `Values`, `Seqs`, `ServiceMaps` | shared helpers: characters, JavaScript values, sequence facts, ordered objects |
| `FormStore` | `src/contexts/FormContext.jsx` |
| `Validators`, `Constants` | `src/constants/index.js` |
| `FieldRules` | the react-hook-form rule tables that Steps 1 and 3 declare |
| `Step1` | `src/components/Steps/Step1/Step1.jsx` |
| `ContactSection`, `Step3` | `src/components/Steps/Step3/` |
| `Step4`, `Step5`, `Step6` | the matching step files |
| `Csv` | the CSV text of `handleExportCSV` and a decoder for it |
| `ProgressBar` | `src/components/common/ProgressBar/ProgressBar.jsx` |

Assumptions about code that cannot be seen here:

- react-hook-form fails a `required` rule on `undefined` and on `""`, and it checks a `pattern` only against a non-empty string. The model checks the declared rule table, not the library's internals.
- `toLowerCase` is modelled on ASCII letters only.
- `\s` is the full ECMAScript whitespace set (WhiteSpace and LineTerminator).
- Fields hold values of their declared kind. A list or object field of another kind reads as empty.
- Inputs that a "same as" box disables (the Step 1 d/b/a name and the copied Step 3 contact fields) are validated and submitted like enabled ones: `Step1Submit` and `Step3Submit` check and merge them.
- An unreachable JavaScript `TypeError` is modelled as `None`. The removers of Steps 4 and 5 read their list without a fallback, but their buttons only appear next to a listed item.

Where the code and the form's documentation disagree, the model follows the code:

- Step 1's work phone accepts a looser pattern than ten digits: `^[\+]?[1-9]?[\d\s\-\(\)]{10,}$`.
- Step 5 does not check that dates lie in the future.
- Step 5's standards are the inline "Standard 1".."Standard 4", not `STANDARDS_OPTIONS`.
- Step 1 has no email verification and no unchecking of "same as legal entity" when the legal name drifts.

A consequence the model makes visible: Step 3 copies the primary contact's work phone into a block. That block's phone field requires exactly ten digits. So a work phone such as `(555) 123-4567` passes Step 1's rule, yet once the CEO block is set to "same as primary" the copied phone shows "Phone number must be exactly 10 digits" and Step 3's Continue leaves the store unchanged (`Step3.CopiedWorkPhoneCanFailContactRule`, under the disabled-input assumption above).

## Model

| member | source | states |
|---|---|---|
| FormStore.UpdateFormData | src/contexts/FormContext.jsx:62-64 | The merged record has the old keys plus the patch's keys. Patched keys take the patch's value, every other key keeps its value, and the step does not move. |
| FormStore.NextStep | src/contexts/FormContext.jsx:66-70 | Below step 6 the counter goes up by one; at 6 nothing changes; the record is untouched. |
| FormStore.PreviousStep | src/contexts/FormContext.jsx:72-76 | Above step 1 the counter goes down by one; at 1 nothing changes; the record is untouched. |
| FormStore.GoToStep | src/contexts/FormContext.jsx:78-82 | The counter becomes n exactly when 1 ≤ n ≤ 6; any other n leaves the store as it was. |
| FormStore.ResetForm | src/contexts/FormContext.jsx:84-87 | Whatever the store held, the result is step 1 with the initial record. |
| FormStore.ShowAlternateStep2IsStrict | src/contexts/FormContext.jsx:90-92 | The alternate Step 2 shows iff `sameAsLegalEntity` is exactly `true`. It is off for the initial record. |
| FormStore.ApplyKeepsStepValid | src/contexts/FormContext.jsx:62-87 | Each of update, next, previous, goTo and reset keeps the counter in 1..6. |
| FormStore.RunKeepsStepValid | src/contexts/FormContext.jsx:59-87 | From a valid counter, any sequence of operations keeps the counter in 1..6. |
| FormStore.InitialStepValid | src/contexts/FormContext.jsx:59 | The counter starts inside 1..6. |
| FormStore.RunAppend | src/contexts/FormContext.jsx:59-87 | Running one more operation after a history applies it to the history's final store. |
| FormStore.ResetAfterAnyHistory | src/contexts/FormContext.jsx:5-56 | After any history, a reset yields exactly the initial store. |
| FormStore.RunKeepsInitialKeys | src/contexts/FormContext.jsx:5-87 | No operation removes a key, so every key of `initialFormData` stays present. |
| FormStore.NavigationKeepsData | src/contexts/FormContext.jsx:66-82 | next, previous and goTo never change the record. |
| FormStore.EmptyPatchIsIdentity | src/contexts/FormContext.jsx:62-64 | Merging an empty patch changes nothing. |
| FormStore.PatchIsIdempotent | src/contexts/FormContext.jsx:62-64 | Merging the same patch twice equals merging it once. |
| Validators.LettersOnlyRejectsDigits | src/constants/index.js:117 | No string that contains a digit matches `LETTERS_ONLY`. |
| Validators.LettersOnlyRejectsEmpty | src/constants/index.js:117 | The empty string does not match `LETTERS_ONLY`. |
| Validators.EmailPatternHasShape | src/constants/index.js:114 | An accepted email has no whitespace, exactly one '@' with text before it, and a domain with a '.' that is neither its first nor its last character. |
| Validators.EmailShapeMatchesPattern | src/constants/index.js:114 | Every string of that shape is accepted. |
| Validators.EmailPatternIffShape | src/constants/index.js:114 | The email pattern accepts exactly the strings of that shape. |
| Validators.WorkPhonePatternIffShape | src/components/Steps/Step1/Step1.jsx:181 | The work-phone regex matches exactly an optional '+' followed by 10 or more digits, spaces, '-', '(' or ')'. |
| Validators.WorkPhoneAccepted | src/components/Steps/Step1/Step1.jsx:181 | An accepted work phone has at least 10 characters, each allowed by the class or a leading '+'. |
| Validators.PhoneImpliesWorkPhone | src/components/Steps/Step1/Step1.jsx:181 | Every ten-digit phone is an accepted work phone. |
| Constants.StatePositionOfOption | src/constants/index.js:6-57 | Looking up any state option's code finds that same option. |
| Constants.StateCodesDistinct | src/constants/index.js:6-57 | There are 50 state options and their codes are pairwise distinct. |
| Constants.FacilityTypesDistinct | src/constants/index.js:60-67 | There are six facility types and they are pairwise distinct. |
| Constants.FormStepsNumbered | src/constants/index.js:103-110 | There are six steps, numbered 1..6 in order. |
| FieldRules.RuleError | src/components/Steps/Step1/Step1.jsx:178-184 | An empty value fails exactly the rules that are required, with the rule's required message. A non-empty string fails the pattern exactly when the pattern does not match it, and then shows the pattern's message. A non-empty value under a rule without a pattern passes. |
| FieldRules.Submit | src/components/Steps/Step1/Step1.jsx:22-25 | When every rule passes, the values are merged into the store and the step goes one on. Otherwise the store is unchanged. |
| FieldRules.Save | src/components/Steps/Step1/Step1.jsx:39-43 | Save merges the current values whatever the rules say, and the step stays. |
| FieldRules.EmptyFieldFailsIffRequired | src/components/Steps/Step3/ContactSection.jsx:38 | An empty field fails its rule iff the rule is required, and a failing required field blocks Continue. |
| Step1.Step1RuleCoverage | src/components/Steps/Step1/Step1.jsx:59-218 | Every field but the cell phone has a required rule with its fixed message. Only the work phone and the email carry a pattern. |
| Step1.SameAsLegalChange | src/components/Steps/Step1/Step1.jsx:27-37 | The flag takes the box's state. Checking copies the legal entity name into the d/b/a name and unchecking clears it. The store receives only the flag and nothing else changes. |
| Step1.ToggleDecidesAlternateStep2 | src/components/Steps/Step1/Step1.jsx:30 | After the toggle, the alternate Step 2 shows iff the box was checked. |
| Step1.ToggleDisablesDoingBusinessAs | src/components/Steps/Step1/Step1.jsx:87 | After the toggle, the d/b/a input is disabled exactly when the box was checked. |
| Step1.Step1Submit | src/components/Steps/Step1/Step1.jsx:22-25 | Continue merges and advances exactly when every Step 1 rule passes. |
| Step1.EmptyLegalNameBlocks | src/components/Steps/Step1/Step1.jsx:59-61 | An empty legal entity name blocks Continue with "Legal Entity Name is required". |
| Step1.CheckCopiesLegalName | src/components/Steps/Step1/Step1.jsx:32-33 | Checking the box makes the d/b/a name the typed legal name, and the step stays. |
| ContactSection.NamesDistinct | src/components/Steps/Step3/ContactSection.jsx:13 | Two field names are equal iff both prefix and field agree. No field name is a flag name, and flag names are distinct per prefix. |
| ContactSection.PrefixedNameInjective | src/components/Steps/Step3/ContactSection.jsx:13 | Equal prefixed names come from the same prefix and suffix. |
| ContactSection.ContactRules | src/components/Steps/Step3/ContactSection.jsx:37-133 | A block has four rules on its own fields. Each is required iff the block is required, with the message `${title} <Field> is required`. The patterns are letters, letters, ten digits and email, each with the message the block shows when it fails. |
| ContactSection.DigitKeyFilterOnCharacters | src/components/Steps/Step3/ContactSection.jsx:96-109 | A one-character key passes the phone filter iff it is a digit. |
| ContactSection.DigitKeyFilterOnEditingKeys | src/components/Steps/Step3/ContactSection.jsx:99-105 | Backspace, Delete, Tab, ArrowLeft and ArrowRight always pass. |
| ContactSection.Inputs | src/components/Steps/Step3/ContactSection.jsx:48-138 | The four inputs bind the block's field names, and each is disabled iff "same as primary" is set. |
| Step3.Step3RuleCoverage | src/components/Steps/Step3/Step3.jsx:145-295 | There are 16 rules. The CEO and invoicing fields are required with their block's title, the Director of Quality's are not, and every billing field is required. |
| Step3.Step3RulesLayout | src/components/Steps/Step3/Step3.jsx:174-295 | The rule list holds the three blocks' rules in page order, followed by the four billing rules. |
| Step3.QualityBlockOptional | src/components/Steps/Step3/Step3.jsx:186-192 | A Director of Quality block left blank passes all its rules. |
| Step3.BlocksDisjoint | src/components/Steps/Step3/ContactSection.jsx:13 | Blocks with different prefixes share no field name, and no block field is another block's flag. |
| Step3.CopyPrimary | src/components/Steps/Step3/Step3.jsx:71-74 | Each block field takes the primary first name, last name, work phone or email. Every other key keeps its value. |
| Step3.SameAsPrimaryChange | src/components/Steps/Step3/Step3.jsx:67-83 | The flag takes the box's state. Checking copies the primary contact, and unchecking only sets the flag. No key outside the block changes. |
| Step3.SyncWithPrimary | src/components/Steps/Step3/Step3.jsx:30-60 | Every block whose flag is set holds the primary contact. Keys outside those blocks keep their values, no other key appears, and the flags are unchanged. |
| Step3.SyncKeepsFlags | src/components/Steps/Step3/Step3.jsx:30-60 | The effect overwrites the same blocks on its next run. |
| Step3.SyncIdempotent | src/components/Steps/Step3/Step3.jsx:30-60 | Running the effect twice equals running it once. |
| Step3.CheckThenSyncAgree | src/components/Steps/Step3/Step3.jsx:30-83 | After a box is checked, the effect writes the values the handler already wrote. |
| Step3.PrimaryEditPropagates | src/components/Steps/Step3/Step3.jsx:50-57 | While a block is checked, a new primary first name reaches it on the next run. |
| Step3.CopiedWorkPhoneCanFailContactRule | src/components/Steps/Step3/Step3.jsx:30-60 | With the CEO block set to "same as primary" and the primary work phone `(555) 123-4567`, which passes Step 1's work-phone rule, the synced CEO phone fails its rule with "Phone number must be exactly 10 digits", and Continue leaves the store unchanged. |
| Step3.CityKeyFilter | src/components/Steps/Step3/Step3.jsx:244-248 | The city filter blocks exactly the digit keys, and a city that contains a digit fails its pattern. |
| Step3.InvalidZipBlocks | src/components/Steps/Step3/Step3.jsx:289-294 | A non-empty ZIP code that is not five digits shows "ZIP Code must be exactly 5 digits", and Continue leaves the store unchanged. |
| Step3.Step3Submit | src/components/Steps/Step3/Step3.jsx:62-65 | Continue merges and advances exactly when all 16 rules pass. |
| Step3.MissingCeoNameBlocks | src/components/Steps/Step3/Step3.jsx:174-181 | A missing CEO first name blocks Continue. |
| Step4.LocationSelect | src/components/Steps/Step4/Step4.jsx:13-16 | The choice is recorded, nothing else in the record changes, and the error clears. |
| Step4.FileUpload | src/components/Steps/Step4/Step4.jsx:18-29 | The new descriptors follow the old list, which is therefore a prefix of the new one. The error clears. |
| Step4.WithoutIdMembers | src/components/Steps/Step4/Step4.jsx:31-34 | The filtered list holds exactly the descriptors with another id. |
| Step4.WithoutIdIsSubsequence | src/components/Steps/Step4/Step4.jsx:31-34 | The kept descriptors stay in their original order. |
| Step4.FileRemove | src/components/Steps/Step4/Step4.jsx:31-34 | The list loses the descriptors with that id and nothing else changes. No list means the unreachable throw. |
| Step4.UploadThenRemove | src/components/Steps/Step4/Step4.jsx:18-34 | Uploading a file with a fresh id and then removing it restores the list. |
| Step4.RemoveIdempotent | src/components/Steps/Step4/Step4.jsx:31-34 | Removing an id a second time changes nothing. |
| Step4.ContinueError | src/components/Steps/Step4/Step4.jsx:40-58 | There is no error iff a location type is set and, for "multiple", a file is listed. A missing type gives the location message. "multiple" with no file gives the upload message. |
| Step4.Continue | src/components/Steps/Step4/Step4.jsx:40-58 | A failed check shows its message and keeps the step. Otherwise the error clears and the step advances. |
| Step4.MultipleNeedsFile | src/components/Steps/Step4/Step4.jsx:48-57 | "multiple" without files gives the upload message. After one upload, Continue advances. |
| Step4.SingleLocationAdvances | src/components/Steps/Step4/Step4.jsx:40-58 | Choosing a single location is enough to go on. |
| Step5.ServiceChange | src/components/Steps/Step5/Step5.jsx:28-45 | Checking sets the entry to selected with empty contact fields, and unchecking deletes the key. A newly checked service is appended after the existing keys, and re-checking a listed one keeps the key order. Other entries and fields are unchanged. |
| Step5.CheckThenUncheck | src/components/Steps/Step5/Step5.jsx:28-45 | Checking an unlisted service and then unchecking it restores the services object. |
| Step5.ContactChange | src/components/Steps/Step5/Step5.jsx:47-61 | Only the named contact field of the named service changes. The entry keeps its flag and its other fields. |
| Step5.ContactEditShows | src/components/Steps/Step5/Step5.jsx:47-61 | The contact input shows what was typed, and the check box keeps its state. |
| Step5.CheckShowsEmptyContact | src/components/Steps/Step5/Step5.jsx:30-44 | A freshly checked service shows empty contact fields. Checking and unchecking set the box. |
| Step5.StandardSelect | src/components/Steps/Step5/Step5.jsx:63-69 | A non-empty standard that is not yet listed is appended; otherwise nothing changes. |
| Step5.StandardSelectKeepsNoDuplicates | src/components/Steps/Step5/Step5.jsx:63-69 | The list stays free of repeats, and selecting the same standard again is a no-op. |
| Step5.RemoveListItem | src/components/Steps/Step5/Step5.jsx:71-77 | Exactly the element at the index is removed. No other field changes. |
| Step5.RemoveKeepsOrderAndNoDuplicates | src/components/Steps/Step5/Step5.jsx:94-98 | After a removal the rest keep their order and there is still no repeat. |
| Step5.DateCap | src/components/Steps/Step5/Step5.jsx:81 | The cap is `THROMBOLYTIC_MAX` (25) for thrombolytic dates and `THROMBECTOMY_MAX` (15) otherwise. |
| Step5.DateAdd | src/components/Steps/Step5/Step5.jsx:79-92 | A date is appended iff it is non-empty, the list is below its cap and the date is absent. Otherwise nothing changes. |
| Step5.DateAddKeepsWellFormed | src/components/Steps/Step5/Step5.jsx:79-92 | Adding keeps the list within its cap and free of repeats. |
| Step5.DateRemoveKeepsWellFormed | src/components/Steps/Step5/Step5.jsx:94-98 | Removing keeps the list within its cap and free of repeats. |
| Step5.AddAllKeepsWellFormed | src/components/Steps/Step5/Step5.jsx:79-92 | Any number of additions keeps the list within its cap and free of repeats. |
| Step5.InitialDatesWellFormed | src/contexts/FormContext.jsx:54-55 | Both date lists start within their caps and free of repeats. |
| Step5.FilterServices | src/components/Steps/Step5/Step5.jsx:103-105 | A service is kept iff its lower-cased name includes the lower-cased term. Kept services stay in catalogue order. |
| Step5.FilterCategories | src/components/Steps/Step5/Step5.jsx:100-112 | Every shown category is non-empty and shows only matches. Every category with a match is shown. |
| Step5.FilteredCategoriesFromCatalog | src/components/Steps/Step5/Step5.jsx:100-112 | Each shown category comes from the catalogue, with its services in catalogue order. |
| Step5.EmptyTermKeepsCatalog | src/components/Steps/Step5/Step5.jsx:100-112 | An empty term shows the whole catalogue. |
| Step5.ServiceCatalogShownInFull | src/components/Steps/Step5/Step5.jsx:14-26 | With an empty term, the step's own catalogue is shown in full. |
| Step5.SearchIgnoresCase | src/components/Steps/Step5/Step5.jsx:104 | Lower-casing the name or the term first gives the same answer. |
| Csv.EscapeCell | src/components/Steps/Step6/Step6.jsx:223 | An escaped cell begins and ends with a double quote. |
| Csv.QuotedRoundTrip | src/components/Steps/Step6/Step6.jsx:223 | A cell with its quotes doubled reads back up to its closing quote. |
| Csv.RowRoundTrip | src/components/Steps/Step6/Step6.jsx:222-224 | A comma-joined row of escaped cells decodes to its cells. |
| Csv.EncodeDecodeRoundTrip | src/components/Steps/Step6/Step6.jsx:221-225 | Decoding the encoded text gives back every row, for rows with at least one cell. |
| Step6.ExportRows | src/components/Steps/Step6/Step6.jsx:47-218 | The header comes first and every row has three cells. There are 26 fixed rows, then one row per non-empty date list. |
| Step6.ExportRoundTrip | src/components/Steps/Step6/Step6.jsx:43-225 | For any record, the exported text decodes to exactly the export rows, header first. |
| Step6.ExportPlaceholders | src/components/Steps/Step6/Step6.jsx:47-94 | Empty fields read "Not Provided" and an empty facility type "Not Selected"; filled fields show their text. Email verification reads "Yes"/"No", and empty names leave only the space. |
| Step6.ExportFilesCell | src/components/Steps/Step6/Step6.jsx:166-172 | The file names are joined by "; ", or "No files uploaded". |
| Step6.ExportServicesCell | src/components/Steps/Step6/Step6.jsx:175-186 | The service keys, in check order, are joined by "; ", or "No services selected". |
| Step6.ExportStandardsCell | src/components/Steps/Step6/Step6.jsx:187-193 | The standards are joined by "; ", or "No standards selected". |
| Step6.ExportDateRows | src/components/Steps/Step6/Step6.jsx:205-218 | With no dates there are exactly 26 rows. A thrombolytic list adds a row right after them. |
| Step6.ExportSiteConfiguration | src/components/Steps/Step6/Step6.jsx:157-165 | "single" shows "Single Location", "multiple" shows "Multiple Locations", and an empty type shows "Not Selected". |
| Step6.SiteConfiguration | src/components/Steps/Step6/Step6.jsx:160-164 | It maps "single", "multiple" and anything else to the three labels. |
| Step6.FormatPhone | src/components/Steps/Step6/Step6.jsx:37-40 | Ten characters become `(abc) def-ghij`. Other non-empty text is returned as-is, and no phone reads "Not Provided". |
| Step6.FormatTenRoundTrip | src/components/Steps/Step6/Step6.jsx:39 | The 14-character form keeps the ten characters, which can be read back out of it. |
| Step6.AllSectionsStartExpanded | src/components/Steps/Step6/Step6.jsx:12-18 | Every section starts expanded. |
| Step6.ToggleSection | src/components/Steps/Step6/Step6.jsx:20-25 | Only the named section flips, and the others keep their state. |
| Step6.ToggleTwice | src/components/Steps/Step6/Step6.jsx:20-25 | Toggling a section twice restores the state. |
| Step6.EditStep | src/components/Steps/Step6/Step6.jsx:459 | Every Edit target is a valid step before the review step. |
| Step6.Edit | src/components/Steps/Step6/Step6.jsx:455-460 | Edit opens the section's step and keeps the answers. |
| Step6.EditTargetsDistinct | src/components/Steps/Step6/Step6.jsx:459-735 | Different sections open different steps. |
| Step6.Submit | src/components/Steps/Step6/Step6.jsx:848-883 | Submit yields a payload iff certification is checked, and the payload is the whole record. |
| ProgressBar.StatusOf | src/components/common/ProgressBar/ProgressBar.jsx:33-48 | Step k is completed iff k < current, current iff k = current, and inactive iff k > current. |
| ProgressBar.Segments | src/components/common/ProgressBar/ProgressBar.jsx:33-55 | There is one segment per step, in step-list order. Each has its label and its class, and the highlight sits on the current step only. |
| ProgressBar.Title | src/components/common/ProgressBar/ProgressBar.jsx:16 | For a valid step, the title is that step's entry in the list. |
| ProgressBar.OneCurrentSegment | src/components/common/ProgressBar/ProgressBar.jsx:33-50 | Exactly one segment is current, and exactly the ones before it are completed. |
| ProgressBar.TitleAfterAnyHistory | src/components/common/ProgressBar/ProgressBar.jsx:16 | Whatever the store went through, the title lookup is in bounds and names the current step. |
| ProgressBar.CounterText | src/components/common/ProgressBar/ProgressBar.jsx:18 | On every valid step the counter reads "Step n of 6", with n written as its digit. |
| ProgressBar.FirstScreen | src/components/common/ProgressBar/ProgressBar.jsx:16-52 | A new visitor sees "New DNV Quote Request" and "Step 1 of 6", with the first segment current. |
| Text.NatToStringValue | src/components/common/ProgressBar/ProgressBar.jsx:18 | The rendered step number reads back as the number. |

## Left out

- PDF generation (`handleDownloadPDF`), which is drawing calls into jsPDF.
- The Blob, the anchor download, the date-stamped file names, `console.log` and `alert`. In the Step 6 Submit these leave only the gate and the payload.
- Upload descriptor internals. Ids come from `Date.now() + Math.random()` and the size from float division, so the descriptors are a parameter of `Step4.FileUpload`.
- React re-render timing and the async `trigger` inside the Step 3 effect. The effect is modelled as one synchronous recompute (`Step3.SyncWithPrimary`).
- The order in which react-hook-form checks rules. Only pass/fail of the declared rule table is modelled.
- Step 2, a single required radio choice over `FACILITY_TYPES`. Navigation, SupportChat and App are presentational.
- The root-level `components/` drafts, which duplicate `src/` with different rules.
- Behaviour that only tests assert: future-date checks, `formatDateToUS`, email verification and legal-name drift.
- `activeTab` in Step 5, which does not affect the search. The Save buttons of Steps 4 and 5 show an alert and nothing more.
- The ZIP input's `maxLength` and key filter, and the phone `maxLength`. They are recorded as constants (`Step3.ZipMaxLength`, `ContactSection.PhoneMaxLength`), not as input events.
- Csv.EncodeDecodeRoundTrip: holds only for rows with at least one cell. An empty row encodes as an empty line, which no decoder can tell from no row. The export never writes one.
- Step6.ExportPlaceholders: states the placeholder rule for the legal entity name, facility type, email verification and primary contact name. The other scalar cells use the same `Cell` function.
- Step5.ServiceChange: the key order it states (a newly checked service goes last) is insertion order, which ECMAScript applies only to keys that are not array indices; a key such as `"5"` would be listed first, in numeric order. Every service name in the catalogue is a non-index string, so no reachable input is affected; `Step6.SelectedServices` and `Step6.ServicesCell` rely on the same order.
- Step6.FormatPhone: counts a phone's length in Unicode scalar values, while `phone.length` counts UTF-16 code units. The two differ only on characters outside the Basic Multilingual Plane: for `12345678😀` the downloaded PDF shows `(123) 456-78😀`, while the model returns the text unchanged. Such text can reach the downloaded PDF through the unvalidated cell phone and Save.
- Step6.EditStep: cites the first Edit button. The other four (`goToStep(2)`..`goToStep(5)`) are the remaining cases.
