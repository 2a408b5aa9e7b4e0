/** Step 4, site information: the single/multiple location choice, the
    uploaded spreadsheet list, and the Continue guard. The step writes
    straight into the store; its only local state is the error line. */
module Step4 {
  import opened Values
  import opened Seqs
  import opened FormStore

  /** The store together with the step's `error` state. */
  datatype View = View(store: Store, error: string)

  const NoLocationError := "Please select a location type to continue."
  const NoFileError := "Please upload at least one file to continue."

  /** `handleLocationSelect`: records the choice and clears the error. */
  function LocationSelect(v: View, locationType: string): (r: View)
    ensures Field(r.store.data, "locationType") == Str(locationType)
    ensures forall k :: k in v.store.data && k != "locationType" ==> k in r.store.data && r.store.data[k] == v.store.data[k]
    ensures r.store.currentStep == v.store.currentStep
    ensures r.error == ""
  {
    View(UpdateFormData(v.store, map["locationType" := Str(locationType)]), "")
  }

  /** `handleFileUpload`: the new descriptors go after the ones already
      listed (no list yet reads as an empty one) and the error clears. The
      descriptors, whose ids come from the clock and a random number, are
      a parameter. */
  function FileUpload(v: View, newFiles: seq<FileDescriptor>): (r: View)
    ensures var before := FilesOf(Field(v.store.data, "uploadedFiles"));
      Field(r.store.data, "uploadedFiles") == Files(before + newFiles)
    ensures forall k :: k in v.store.data && k != "uploadedFiles" ==> k in r.store.data && r.store.data[k] == v.store.data[k]
    ensures r.store.currentStep == v.store.currentStep
    ensures r.error == ""
  {
    var before := FilesOf(Field(v.store.data, "uploadedFiles"));
    View(UpdateFormData(v.store, map["uploadedFiles" := Files(before + newFiles)]), "")
  }

  /** `files.filter((f) => f.id !== id)`. */
  function WithoutId(files: seq<FileDescriptor>, id: int): (r: seq<FileDescriptor>)
    ensures |r| <= |files|
  {
    if |files| == 0 then []
    else if files[0].id == id then WithoutId(files[1..], id)
    else [files[0]] + WithoutId(files[1..], id)
  }

  /** Exactly the descriptors under other ids are kept. */
  lemma {:induction false} WithoutIdMembers(files: seq<FileDescriptor>, id: int)
    ensures forall f :: f in WithoutId(files, id) <==> f in files && f.id != id
    decreases |files|
  {
    if |files| > 0 {
      WithoutIdMembers(files[1..], id);
      assert files == [files[0]] + files[1..];
    }
  }

  lemma {:induction false} WithoutIdIsSubsequence(files: seq<FileDescriptor>, id: int)
    ensures IsSubsequence(WithoutId(files, id), files)
    decreases |files|
  {
    if |files| > 0 {
      WithoutIdIsSubsequence(files[1..], id);
      var rest := WithoutId(files[1..], id);
      if files[0].id == id {
        SubsequenceSkipHead(rest, files);
      } else {
        assert ([files[0]] + rest)[1..] == rest;
      }
    }
  }

  /** A list without the id is left as it is. */
  lemma {:induction false} WithoutAbsentId(files: seq<FileDescriptor>, id: int)
    requires forall f :: f in files ==> f.id != id
    ensures WithoutId(files, id) == files
    decreases |files|
  {
    if |files| > 0 {
      assert files[0] in files;
      WithoutAbsentId(files[1..], id);
    }
  }

  lemma {:induction false} WithoutIdAppend(a: seq<FileDescriptor>, b: seq<FileDescriptor>, id: int)
    ensures WithoutId(a + b, id) == WithoutId(a, id) + WithoutId(b, id)
    decreases |a|
  {
    if |a| > 0 {
      var ab := a + b;
      assert ab[0] == a[0];
      assert ab[1..] == a[1..] + b;
      WithoutIdAppend(a[1..], b, id);
      if a[0].id == id {
        assert WithoutId(ab, id) == WithoutId(a[1..] + b, id);
        assert WithoutId(a, id) == WithoutId(a[1..], id);
      } else {
        assert WithoutId(ab, id) == [a[0]] + WithoutId(a[1..] + b, id);
        assert WithoutId(a, id) == [a[0]] + WithoutId(a[1..], id);
      }
    } else {
      assert a + b == b;
    }
  }

  /** `handleFileRemove(id)`: the list without the descriptors carrying
      that id. It reads `formData.uploadedFiles.filter`, which throws when
      there is no list; the button only exists next to a listed file, so
      `None` stands for that unreachable throw. */
  function FileRemove(v: View, id: int): (r: Option<View>)
    ensures !Field(v.store.data, "uploadedFiles").Files? <==> r.None?
    ensures r.Some? ==> Field(r.value.store.data, "uploadedFiles") == Files(WithoutId(Field(v.store.data, "uploadedFiles").files, id))
    ensures r.Some? ==> forall k :: k in v.store.data && k != "uploadedFiles" ==> k in r.value.store.data && r.value.store.data[k] == v.store.data[k]
    ensures r.Some? ==> r.value.store.currentStep == v.store.currentStep && r.value.error == v.error
  {
    match Field(v.store.data, "uploadedFiles")
    case Files(files) => Some(View(UpdateFormData(v.store, map["uploadedFiles" := Files(WithoutId(files, id))]), v.error))
    case _ => None
  }

  /** Uploading one file with a fresh id and then removing it gives back
      the list as it was. */
  lemma UploadThenRemove(v: View, file: FileDescriptor)
    requires Field(v.store.data, "uploadedFiles").Files?
    requires forall f :: f in Field(v.store.data, "uploadedFiles").files ==> f.id != file.id
    ensures var r := FileRemove(FileUpload(v, [file]), file.id);
      r.Some? && Field(r.value.store.data, "uploadedFiles") == Field(v.store.data, "uploadedFiles")
  {
    var before := Field(v.store.data, "uploadedFiles").files;
    WithoutIdAppend(before, [file], file.id);
    WithoutAbsentId(before, file.id);
    assert WithoutId([file], file.id) == [];
    assert before + [] == before;
  }

  /** Removing the same id twice is the same as removing it once. */
  lemma RemoveIdempotent(v: View, id: int)
    requires Field(v.store.data, "uploadedFiles").Files?
    ensures var once := FileRemove(v, id);
      once.Some? && FileRemove(once.value, id).Some?
      && Field(FileRemove(once.value, id).value.store.data, "uploadedFiles") == Field(once.value.store.data, "uploadedFiles")
  {
    var once := FileRemove(v, id).value;
    WithoutIdMembers(Field(v.store.data, "uploadedFiles").files, id);
    WithoutAbsentId(Field(once.store.data, "uploadedFiles").files, id);
  }

  /** The Continue guard: the first failing check's message, or none. A
      location type is needed, and a "multiple" one also needs a file. */
  function ContinueError(data: FormData): (e: Option<string>)
    ensures e.None? <==> (Truthy(Field(data, "locationType"))
      && (Field(data, "locationType") == Str("multiple") ==> |FilesOf(Field(data, "uploadedFiles"))| > 0))
    ensures !Truthy(Field(data, "locationType")) ==> e == Some(NoLocationError)
    ensures Field(data, "locationType") == Str("multiple") && |FilesOf(Field(data, "uploadedFiles"))| == 0 ==>
      e == Some(NoFileError)
  {
    if !Truthy(Field(data, "locationType")) then Some(NoLocationError)
    else if Field(data, "locationType") == Str("multiple") && |FilesOf(Field(data, "uploadedFiles"))| == 0 then Some(NoFileError)
    else None
  }

  /** `handleContinue`: on a failed check the message is shown and the
      store stays; otherwise the error clears and the step advances. */
  function Continue(v: View): (r: View)
    ensures ContinueError(v.store.data).Some? ==> r == View(v.store, ContinueError(v.store.data).value)
    ensures ContinueError(v.store.data).None? ==> r == View(NextStep(v.store), "")
    ensures r.store.data == v.store.data
  {
    match ContinueError(v.store.data)
    case Some(message) => View(v.store, message)
    case None => View(NextStep(v.store), "")
  }

  /** Choosing a single location is enough to go on; choosing multiple
      locations is not, until a file is uploaded. */
  lemma SingleLocationAdvances(v: View)
    requires v.store.currentStep < LastStep
    ensures Continue(LocationSelect(v, "single")).store.currentStep == v.store.currentStep + 1
  {
  }

  lemma MultipleNeedsFile(v: View, file: FileDescriptor)
    requires |FilesOf(Field(v.store.data, "uploadedFiles"))| == 0
    ensures Continue(LocationSelect(v, "multiple")).error == NoFileError
    ensures var w := FileUpload(LocationSelect(v, "multiple"), [file]);
      Continue(w).error == "" && Continue(w).store == NextStep(w.store)
  {
  }
}
