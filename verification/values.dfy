/** The values held in the shared form record, with the ECMAScript notions
    the handlers rely on: a missing key reads as `undefined`, `a || b`
    falls back on falsy values, and objects keep their keys in insertion
    order (ECMAScript's order for keys that are not array indices, which
    covers every service name the form offers). */
module Values {
  import opened Text

  datatype Option<T> = None | Some(value: T)

  /** Metadata of one uploaded site file. The id (a timestamp plus a random
      fraction in the source) and the size label (a float division printed
      with one decimal) are opaque values chosen by the caller. */
  datatype FileDescriptor = FileDescriptor(id: int, name: string, size: string)

  /** One entry of `servicesData`: the check-box flag and the contact
      sub-record (`name`, `phone`, `email`) keyed by field name. An entry
      created by a contact edit has no `selected` key, which is falsy like
      `false`, so it is modelled as `false`. */
  datatype ServiceEntry = ServiceEntry(selected: bool, contact: map<string, string>)

  /** A JavaScript object used as a dictionary: its keys in insertion
      order, as ECMAScript lists keys that are not array indices. */
  type ServiceMap = seq<(string, ServiceEntry)>

  /** A value stored under a key of the form record. */
  datatype Value =
    | Undefined
    | Str(s: string)
    | Bool(b: bool)
    | StrList(items: seq<string>)
    | Files(files: seq<FileDescriptor>)
    | Services(entries: ServiceMap)

  type FormData = map<string, Value>

  /** `formData[key]`: a missing key reads as `undefined`. */
  function Field(d: FormData, key: string): (v: Value)
    ensures key !in d ==> v == Undefined
    ensures key in d ==> v == d[key]
  {
    if key in d then d[key] else Undefined
  }

  /** ECMAScript truthiness: `undefined`, `""` and `false` are falsy; every
      array and object is truthy, even an empty one. */
  predicate Truthy(v: Value) {
    match v
    case Undefined => false
    case Str(s) => s != ""
    case Bool(b) => b
    case _ => true
  }

  /** `String(v)` for the values the form holds. */
  function ToText(v: Value): string {
    match v
    case Undefined => "undefined"
    case Str(s) => s
    case Bool(b) => if b then "true" else "false"
    case StrList(items) => Join(",", items)
    case Files(files) => Join(",", seq(|files|, _ => "[object Object]"))
    case Services(_) => "[object Object]"
  }

  /** The text of `v || fallback`. */
  function OrElse(v: Value, fallback: string): (r: string)
    ensures !Truthy(v) ==> r == fallback
    ensures v.Str? && v.s != "" ==> r == v.s
  {
    if Truthy(v) then ToText(v) else fallback
  }

  /** `v || []` for a field that holds a list of strings; a value of
      another kind reads as the empty list. */
  function ListOf(v: Value): seq<string> {
    if v.StrList? then v.items else []
  }

  /** `v || []` for the uploaded-file list. */
  function FilesOf(v: Value): seq<FileDescriptor> {
    if v.Files? then v.files else []
  }

  /** `v || {}` for `servicesData`. */
  function ServicesOf(v: Value): ServiceMap {
    if v.Services? then v.entries else []
  }
}
