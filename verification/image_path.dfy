/** How every view turns a stored image path into an `<img src>`: the server may
    store Windows-style paths, so each backslash becomes a slash, and the result is
    resolved against the configured API origin (`VITE_API_URL`). */
module ImagePath {
  import opened Common

  function SlashChar(c: char): char {
    if c == '\\' then '/' else c
  }

  /** `path.replace(/\\/g, '/')`. */
  function ForwardSlashes(path: string): (r: string)
    ensures |r| == |path|
    ensures forall i :: 0 <= i < |path| ==> (path[i] == '\\' ==> r[i] == '/')
    ensures forall i :: 0 <= i < |path| ==> (path[i] != '\\' ==> r[i] == path[i])
    ensures forall i :: 0 <= i < |r| ==> r[i] != '\\'
    decreases |path|
  {
    if |path| == 0 then "" else [SlashChar(path[0])] + ForwardSlashes(path[1..])
  }

  /** Normalising twice is normalising once, and a path without backslashes is
      already normal. */
  lemma ForwardSlashesIdempotent(path: string)
    ensures ForwardSlashes(ForwardSlashes(path)) == ForwardSlashes(path)
    ensures (forall i :: 0 <= i < |path| ==> path[i] != '\\') <==> ForwardSlashes(path) == path
  {
  }

  /** `${VITE_API_URL}/${path.replace(/\\/g, '/')}`. */
  function ImageSrc(base: string, path: string): (r: string)
    ensures |r| == |base| + 1 + |path|
    ensures r[..|base|] == base && r[|base|] == '/'
    ensures r[|base| + 1..] == ForwardSlashes(path)
  {
    base + "/" + ForwardSlashes(path)
  }

  /** The image element the admin tables, the carousel and the article header
      render: a source when the stored path is truthy, otherwise a placeholder. */
  function OptionalSrc(base: string, path: string): (r: Option<string>)
    ensures r.Some? <==> Truthy(path)
    ensures r.Some? ==> r.value == ImageSrc(base, path)
  {
    if Truthy(path) then Some(ImageSrc(base, path)) else None
  }
}
