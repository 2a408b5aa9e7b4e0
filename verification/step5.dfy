/** Step 5, services and certifications: the service check boxes with
    their contact sub-records, the standards list, the two capped date
    lists, and the catalogue search. Every handler writes straight into the
    store. */
module Step5 {
  import opened Text
  import opened Values
  import opened Seqs
  import opened ServiceMaps
  import opened FormStore
  import Constants

  // ---------------------------------------------------------------------
  // Services

  /** The entry a newly checked service gets: selected, with an empty
      contact name, phone and email. */
  const FreshEntry := ServiceEntry(true, map["name" := "", "phone" := "", "email" := ""])

  function Services(s: Store): ServiceMap {
    ServicesOf(Field(s.data, "servicesData"))
  }

  /** `handleServiceChange(service, checked)`: checking (re)writes the
      service's entry, unchecking deletes the key; no other entry and no
      other field of the record changes. */
  function ServiceChange(s: Store, service: string, checked: bool): (r: Store)
    ensures checked ==> Get(Services(r), service) == Some(FreshEntry)
    ensures checked && !HasKey(Services(s), service) ==> Keys(Services(r)) == Keys(Services(s)) + [service]
    ensures checked && HasKey(Services(s), service) ==> Keys(Services(r)) == Keys(Services(s))
    ensures !checked ==> !HasKey(Services(r), service)
    ensures forall k :: k != service ==> Get(Services(r), k) == Get(Services(s), k)
    ensures forall k :: k in s.data && k != "servicesData" ==> k in r.data && r.data[k] == s.data[k]
    ensures r.currentStep == s.currentStep
  {
    var current := Services(s);
    if checked then
      UpdateFormData(s, map["servicesData" := Values.Services(Put(current, service, FreshEntry))])
    else
      DeleteLookups(current, service);
      UpdateFormData(s, map["servicesData" := Values.Services(Delete(current, service))])
  }

  /** Checking a service that was not listed and unchecking it again gives
      back the services object as it was. */
  lemma CheckThenUncheck(s: Store, service: string)
    requires !HasKey(Services(s), service)
    ensures Services(ServiceChange(ServiceChange(s, service, true), service, false)) == Services(s)
  {
    PutThenDelete(Services(s), service, FreshEntry);
  }

  /** `formData.servicesData?.[service]?.selected || false`. */
  predicate IsSelected(data: FormData, service: string) {
    var e := Get(ServicesOf(Field(data, "servicesData")), service);
    e.Some? && e.value.selected
  }

  /** `handleContactChange(service, field, value)`: the service's entry
      keeps its flag and its other contact fields and takes the new value;
      a service without an entry gets one with no `selected` key. */
  function ContactChange(s: Store, service: string, field: string, value: string): (r: Store)
    ensures var before := Get(Services(s), service);
      var after := Get(Services(r), service);
      && after.Some?
      && after.value.contact == (if before.Some? then before.value.contact else map[])[field := value]
      && after.value.selected == (before.Some? && before.value.selected)
    ensures forall k :: k != service ==> Get(Services(r), k) == Get(Services(s), k)
    ensures forall k :: k in s.data && k != "servicesData" ==> k in r.data && r.data[k] == s.data[k]
    ensures r.currentStep == s.currentStep
  {
    var current := Services(s);
    var entry := match Get(current, service)
      case Some(e) => e
      case None => ServiceEntry(false, map[]);
    var updated := ServiceEntry(entry.selected, entry.contact[field := value]);
    UpdateFormData(s, map["servicesData" := Values.Services(Put(current, service, updated))])
  }

  /** `contact?.[field] || ""`, what a contact input shows. */
  function ContactValue(data: FormData, service: string, field: string): (v: string)
    ensures var e := Get(ServicesOf(Field(data, "servicesData")), service);
      e.None? || field !in e.value.contact ==> v == ""
  {
    match Get(ServicesOf(Field(data, "servicesData")), service)
    case Some(e) => if field in e.contact then e.contact[field] else ""
    case None => ""
  }

  /** Editing a contact field shows the typed text and keeps the check box
      as it was. */
  lemma ContactEditShows(s: Store, service: string, field: string, value: string)
    ensures ContactValue(ContactChange(s, service, field, value).data, service, field) == value
    ensures IsSelected(ContactChange(s, service, field, value).data, service) == IsSelected(s.data, service)
  {
    var r := ContactChange(s, service, field, value);
    assert Field(r.data, "servicesData") == Values.Services(Services(r));
  }

  /** A freshly checked service shows empty contact fields; checking and
      unchecking set the check box. */
  lemma CheckShowsEmptyContact(s: Store, service: string, field: string)
    ensures ContactValue(ServiceChange(s, service, true).data, service, field) == ""
    ensures IsSelected(ServiceChange(s, service, true).data, service)
    ensures !IsSelected(ServiceChange(s, service, false).data, service)
  {
  }

  // ---------------------------------------------------------------------
  // Standards

  function Standards(s: Store): seq<string> {
    ListOf(Field(s.data, "selectedStandards"))
  }

  /** `handleStandardSelect(standard)`: a non-empty standard not yet listed
      goes last; anything else changes nothing. */
  function StandardSelect(s: Store, standard: string): (r: Store)
    ensures standard != "" && standard !in Standards(s) ==> Field(r.data, "selectedStandards") == StrList(Standards(s) + [standard])
    ensures standard == "" || standard in Standards(s) ==> r == s
    ensures r.currentStep == s.currentStep
    ensures forall k :: k in s.data && k != "selectedStandards" ==> k in r.data && r.data[k] == s.data[k]
  {
    if standard != "" && standard !in Standards(s) then
      UpdateFormData(s, map["selectedStandards" := StrList(Standards(s) + [standard])])
    else s
  }

  /** Selecting keeps the list free of repeats, and selecting the same
      standard twice is selecting it once. */
  lemma StandardSelectKeepsNoDuplicates(s: Store, standard: string)
    requires NoDuplicates(Standards(s))
    ensures NoDuplicates(Standards(StandardSelect(s, standard)))
    ensures StandardSelect(StandardSelect(s, standard), standard) == StandardSelect(s, standard)
  {
    var t := StandardSelect(s, standard);
    if standard != "" && standard !in Standards(s) {
      assert standard in Standards(t);
    }
  }

  /** `handleStandardRemove(index)`, and `handleDateRemove(key, index)`:
      `list.filter((_, i) => i !== index)`. The list is read without a
      fallback, so a missing list throws (`None`); the remove buttons are
      only shown next to listed items. */
  function RemoveListItem(s: Store, key: string, index: int): (r: Option<Store>)
    ensures !Field(s.data, key).StrList? <==> r.None?
    ensures r.Some? ==> Field(r.value.data, key) == StrList(RemoveAt(Field(s.data, key).items, index))
    ensures r.Some? ==> r.value.currentStep == s.currentStep
    ensures r.Some? ==> forall k :: k in s.data && k != key ==> k in r.value.data && r.value.data[k] == s.data[k]
  {
    match Field(s.data, key)
    case StrList(items) => Some(UpdateFormData(s, map[key := StrList(RemoveAt(items, index))]))
    case _ => None
  }

  /** Removing keeps the rest in order and adds no repeat. */
  lemma RemoveKeepsOrderAndNoDuplicates(s: Store, key: string, index: int)
    requires Field(s.data, key).StrList? && NoDuplicates(Field(s.data, key).items)
    ensures var r := RemoveListItem(s, key, index).value;
      IsSubsequence(Field(r.data, key).items, Field(s.data, key).items)
      && NoDuplicates(Field(r.data, key).items)
  {
    RemoveAtIsSubsequence(Field(s.data, key).items, index);
    RemoveAtKeepsNoDuplicates(Field(s.data, key).items, index);
  }

  // ---------------------------------------------------------------------
  // Administration dates

  /** `maxDates`: 25 for the thrombolytic list, 15 for any other. */
  function DateCap(dateType: string): (cap: nat)
    ensures dateType == "thrombolyticDates" ==> cap == Constants.THROMBOLYTIC_MAX
    ensures dateType != "thrombolyticDates" ==> cap == Constants.THROMBECTOMY_MAX
  {
    if dateType == "thrombolyticDates" then 25 else 15
  }

  /** `handleDateAdd(dateType, date)`: a non-empty date goes last when the
      list is below its cap and does not hold it yet; otherwise nothing
      changes. */
  function DateAdd(s: Store, dateType: string, date: string): (r: Store)
    ensures var dates := ListOf(Field(s.data, dateType));
      date != "" && |dates| < DateCap(dateType) && date !in dates ==>
        Field(r.data, dateType) == StrList(dates + [date])
    ensures var dates := ListOf(Field(s.data, dateType));
      !(date != "" && |dates| < DateCap(dateType) && date !in dates) ==> r == s
    ensures r.currentStep == s.currentStep
    ensures forall k :: k in s.data && k != dateType ==> k in r.data && r.data[k] == s.data[k]
  {
    var dates := ListOf(Field(s.data, dateType));
    if date != "" && |dates| < DateCap(dateType) && date !in dates then
      UpdateFormData(s, map[dateType := StrList(dates + [date])])
    else s
  }

  /** The date lists' invariant: at most the cap and no repeated date. */
  predicate DatesWellFormed(s: Store, dateType: string) {
    var dates := ListOf(Field(s.data, dateType));
    |dates| <= DateCap(dateType) && NoDuplicates(dates)
  }

  lemma DateAddKeepsWellFormed(s: Store, dateType: string, date: string)
    requires DatesWellFormed(s, dateType)
    ensures DatesWellFormed(DateAdd(s, dateType, date), dateType)
  {
  }

  lemma DateRemoveKeepsWellFormed(s: Store, dateType: string, index: int)
    requires DatesWellFormed(s, dateType) && Field(s.data, dateType).StrList?
    ensures DatesWellFormed(RemoveListItem(s, dateType, index).value, dateType)
  {
    RemoveAtKeepsNoDuplicates(Field(s.data, dateType).items, index);
  }

  /** Sequences of additions, as the date inputs produce them. */
  function AddAll(s: Store, dateType: string, dates: seq<string>): Store
    decreases |dates|
  {
    if |dates| == 0 then s else AddAll(DateAdd(s, dateType, dates[0]), dateType, dates[1..])
  }

  /** However many dates are entered, starting from the initial record the
      list never passes its cap nor holds a date twice. */
  lemma {:induction false} AddAllKeepsWellFormed(s: Store, dateType: string, dates: seq<string>)
    requires DatesWellFormed(s, dateType)
    ensures DatesWellFormed(AddAll(s, dateType, dates), dateType)
    decreases |dates|
  {
    if |dates| > 0 {
      DateAddKeepsWellFormed(s, dateType, dates[0]);
      AddAllKeepsWellFormed(DateAdd(s, dateType, dates[0]), dateType, dates[1..]);
    }
  }

  lemma InitialDatesWellFormed(dateType: string)
    requires dateType in {"thrombolyticDates", "thrombectomyDates"}
    ensures DatesWellFormed(InitialStore, dateType)
  {
  }

  // ---------------------------------------------------------------------
  // Catalogue search

  /** The service names one search keeps. */
  predicate MatchesSearch(service: string, term: string) {
    Includes(Lower(service), Lower(term))
  }

  function FilterServices(services: seq<string>, term: string): (r: seq<string>)
    ensures forall x :: x in r <==> x in services && MatchesSearch(x, term)
    ensures IsSubsequence(r, services)
    decreases |services|
  {
    if |services| == 0 then []
    else
      var rest := FilterServices(services[1..], term);
      if MatchesSearch(services[0], term) then
        assert ([services[0]] + rest)[1..] == rest;
        [services[0]] + rest
      else
        SubsequenceSkipHead(rest, services);
        rest
  }

  /** `filteredCategories`: each category with its services whose
      lower-cased name includes the lower-cased term, categories left with
      none dropped, in catalogue order. */
  function FilterCategories(catalog: seq<(string, seq<string>)>, term: string): (r: seq<(string, seq<string>)>)
    ensures forall e :: e in r ==> |e.1| > 0 && forall x :: x in e.1 ==> MatchesSearch(x, term)
    ensures forall c, x :: (c, x) in catalog && x != [] && FilterServices(x, term) != [] ==> (c, FilterServices(x, term)) in r
    decreases |catalog|
  {
    if |catalog| == 0 then []
    else
      var kept := FilterServices(catalog[0].1, term);
      var rest := FilterCategories(catalog[1..], term);
      if |kept| > 0 then [(catalog[0].0, kept)] + rest else rest
  }

  /** Every category shown comes from the catalogue, with a selection of
      its services in their catalogue order. */
  lemma {:induction false} FilteredCategoriesFromCatalog(catalog: seq<(string, seq<string>)>, term: string, e: (string, seq<string>))
    requires e in FilterCategories(catalog, term)
    ensures exists x :: (e.0, x) in catalog && IsSubsequence(e.1, x)
    decreases |catalog|
  {
    var kept := FilterServices(catalog[0].1, term);
    var rest := FilterCategories(catalog[1..], term);
    if |kept| > 0 && e == (catalog[0].0, kept) {
      assert (e.0, catalog[0].1) == catalog[0];
    } else {
      assert e in rest;
      FilteredCategoriesFromCatalog(catalog[1..], term, e);
      var x :| (e.0, x) in catalog[1..] && IsSubsequence(e.1, x);
      assert (e.0, x) in catalog;
    }
  }

  /** An empty search term keeps every service, so the catalogue shows
      in full. */
  lemma {:induction false} EmptyTermKeepsServices(services: seq<string>)
    ensures FilterServices(services, "") == services
    decreases |services|
  {
    if |services| > 0 {
      EveryStringIncludesEmpty(Lower(services[0]));
      assert Lower("") == "";
      EmptyTermKeepsServices(services[1..]);
    }
  }

  lemma {:induction false} EmptyTermKeepsCatalog(catalog: seq<(string, seq<string>)>)
    requires forall i :: 0 <= i < |catalog| ==> |catalog[i].1| > 0
    ensures FilterCategories(catalog, "") == catalog
    decreases |catalog|
  {
    if |catalog| > 0 {
      EmptyTermKeepsServices(catalog[0].1);
      var tail := catalog[1..];
      assert forall i :: 0 <= i < |tail| ==> |tail[i].1| > 0 by {
        forall i | 0 <= i < |tail| ensures |tail[i].1| > 0 {
          assert tail[i] == catalog[i + 1];
        }
      }
      EmptyTermKeepsCatalog(tail);
      var head := (catalog[0].0, FilterServices(catalog[0].1, ""));
      assert head == catalog[0];
      assert FilterCategories(catalog, "") == [head] + FilterCategories(catalog[1..], "");
      assert catalog == [catalog[0]] + catalog[1..];
    }
  }

  lemma ServiceCatalogShownInFull()
    ensures FilterCategories(Constants.SERVICE_CATEGORIES, "") == Constants.SERVICE_CATEGORIES
  {
    EmptyTermKeepsCatalog(Constants.SERVICE_CATEGORIES);
  }

  /** The search ignores ASCII case on both sides. */
  lemma SearchIgnoresCase(service: string, term: string)
    ensures MatchesSearch(service, term) <==> MatchesSearch(Lower(service), Lower(term))
  {
    LowerIdempotent(service);
    LowerIdempotent(term);
  }

  lemma LowerIdempotent(s: string)
    ensures Lower(Lower(s)) == Lower(s)
  {
  }
}
