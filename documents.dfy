/** JSON documents and the file stores the harness reads and writes. */
module Documents {

  datatype Option<T> = None | Some(value: T)

  /** A JSON value as `json.load` returns it. Numbers are kept as integers:
      the harness only copies them, it never computes with them. */
  datatype Json =
    | Null
    | Bool(b: bool)
    | Num(n: int)
    | Str(s: string)
    | Arr(items: seq<Json>)
    | Obj(fields: map<string, Json>)

  /** The contents of one file: a JSON document, or raw bytes (an image)
      that do not parse as JSON. */
  datatype File = Doc(json: Json) | Blob(bytes: seq<bv8>)

  /** A directory: relative path to contents. */
  type Store = map<string, File>

  /** The document `json.dump(tests_list)` writes: an array of objects. */
  function ListDoc(records: seq<map<string, Json>>): Json
  {
    Arr(seq(|records|, i requires 0 <= i < |records| => Obj(records[i])))
  }

  /** `json.loads(text)[0]`: the first element of an array, the first character
      of a string; anything else (a dictionary, a number, an empty array, bytes
      that are no JSON) raises. */
  function FirstElement(f: File): Option<Json>
  {
    match f
    case Doc(Arr(items)) => if |items| > 0 then Some(items[0]) else None
    case Doc(Str(s)) => if |s| > 0 then Some(Str(s[..1])) else None
    case _ => None
  }

  /** A file holding a one-element JSON list, the shape of every case report. */
  predicate IsSingleton(f: File)
  {
    f.Doc? && f.json.Arr? && |f.json.items| == 1
  }
}
