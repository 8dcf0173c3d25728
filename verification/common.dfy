/** Values shared by every view of the site: optional values, the outcome of
    one HTTP call as a handler sees it, and the values a multipart form carries. */
module Common {

  /** `null`/`undefined` versus a present value. */
  datatype Option<+T> = None | Some(value: T)

  /** The outcome of one awaited request: the response body, or a failure.
      A failure carries the HTTP status when the server answered at all
      (`error.response?.status`), and `None` for a transport error. */
  datatype Reply<+T> = Ok(data: T) | Failed(status: Option<int>)

  /** The HTTP status that the admin dashboard treats as "session rejected". */
  const Unauthorized: int := 401

  /** JavaScript truthiness of a string: only the empty string is falsy.
      Image paths and tokens that are absent are modelled as "". */
  predicate Truthy(s: string) {
    s != ""
  }

  /** An opaque handle to a file chosen in an `<input type="file">`. */
  type FileRef = string

  /** One value appended to a `FormData` body, before the browser serialises it:
      `null` is appended as the value `Null` (the browser sends the text "null"). */
  datatype FormValue = Text(text: string) | Number(number: int) | File(file: FileRef) | Null

  /** `FormData.append(key, value)` entries in append order. */
  type Entries = seq<(string, FormValue)>

  /** The keys of a form body, in append order. */
  function Keys(entries: Entries): (r: seq<string>)
    ensures |r| == |entries|
    ensures forall i :: 0 <= i < |entries| ==> r[i] == entries[i].0
  {
    if |entries| == 0 then [] else [entries[0].0] + Keys(entries[1..])
  }

  /** The value a `FormData` entry gets for an optional file field. */
  function FileOrNull(f: Option<FileRef>): FormValue {
    match f
    case Some(file) => File(file)
    case None => Null
  }
}
