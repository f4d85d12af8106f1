/** Decoded JSON values, and the reads the configuration code makes of them. */
module Json {
  import opened Wrappers

  datatype Value =
    | Null
    | Bool(flag: bool)
    | Number(value: int)
    | Text(text: string)
    | Array(items: seq<Value>)
    | Object(fields: map<string, Value>)

  type Fields = map<string, Value>

  /** Decoding into a string leaves it empty on a missing key, a null and any other kind. */
  function TextAt(o: Fields, key: string): string {
    if key in o && o[key].Text? then o[key].text else ""
  }

  predicate TextItem(v: Value) {
    v.Text? || v.Null?
  }

  function TextOf(v: Value): string {
    if v.Text? then v.text else ""
  }

  /** Decoding into a list of strings; None is a decoding error. */
  function TextsAt(o: Fields, key: string): Option<seq<string>> {
    if key !in o then None
    else match o[key]
      case Null => Some([])
      case Array(items) =>
        if forall i :: 0 <= i < |items| ==> TextItem(items[i])
        then Some(seq(|items|, i requires 0 <= i < |items| => TextOf(items[i])))
        else None
      case _ => None
  }

  /** A boolean field of a decoded structure; absent and null leave it false, None is an error. */
  function FlagAt(o: Fields, key: string): Option<bool> {
    if key !in o || o[key].Null? then Some(false)
    else if o[key].Bool? then Some(o[key].flag)
    else None
  }

  /** Decoding into a list; a missing key and a null give the empty list, None is a decoding error. */
  function ListAt(o: Fields, key: string): Option<seq<Value>> {
    if key !in o || o[key].Null? then Some([])
    else if o[key].Array? then Some(o[key].items)
    else None
  }

  /** Values that decode into a dictionary. */
  predicate Dictionary(v: Value) {
    v.Object? || v.Null?
  }

  function Entries(v: Value): Fields {
    if v.Object? then v.fields else map[]
  }

  function EntriesAt(o: Fields, key: string): Fields {
    if key in o then Entries(o[key]) else map[]
  }

  /** The field is absent, null or a string. */
  predicate TextField(o: Fields, key: string) {
    key in o ==> TextItem(o[key])
  }
}
