/** The public article page: one fetch by slug, then loading, not-found or the
    article with its optional featured image and its tags. */
module BlogDetail {
  import opened Common
  import opened Records
  import ImagePath

  datatype Detail = Detail(blog: Option<Blog>, loading: bool)

  /** Mount state: nothing fetched yet, loading. */
  const Initial: Detail := Detail(None, true)

  /** `fetchBlog`: a response becomes the article; a failure leaves none. The
      spinner stops either way. */
  function Fetched(d: Detail, reply: Reply<Blog>): (r: Detail)
    ensures !r.loading
    ensures reply.Ok? ==> r.blog == Some(reply.data)
    ensures reply.Failed? ==> r.blog == d.blog
  {
    match reply
    case Ok(blog) => Detail(Some(blog), false)
    case Failed(_) => d.(loading := false)
  }

  datatype Page = LoadingPage | NotFound | Article(blog: Blog)

  /** "Loading..." while loading, then "Blog not found" without a post, else the article. */
  function View(d: Detail): (r: Page)
    ensures d.loading <==> r.LoadingPage?
    ensures !d.loading && d.blog.None? <==> r.NotFound?
    ensures r.Article? ==> d.blog == Some(r.blog)
  {
    if d.loading then LoadingPage
    else match d.blog
      case None => NotFound
      case Some(blog) => Article(blog)
  }

  /** A failed fetch from the mount state always ends on "Blog not found";
      a successful one always shows the fetched post. */
  lemma FetchThenView(reply: Reply<Blog>)
    ensures reply.Failed? ==> View(Fetched(Initial, reply)) == NotFound
    ensures reply.Ok? ==> View(Fetched(Initial, reply)) == Article(reply.data)
  {
  }

  /** The featured image, rendered only for a truthy image path. */
  function FeaturedImage(base: string, blog: Blog): (r: Option<string>)
    ensures r.Some? <==> Truthy(blog.image)
    ensures r.Some? ==> r.value == ImagePath.ImageSrc(base, blog.image)
  {
    ImagePath.OptionalSrc(base, blog.image)
  }

  /** `blog.tags?.map(tag => '#' + tag)`: no labels without a tag list. */
  function TagLabels(tags: Option<seq<string>>): (r: seq<string>)
    ensures tags.None? ==> r == []
    ensures tags.Some? ==> |r| == |tags.value|
    ensures tags.Some? ==> forall i :: 0 <= i < |r| ==> |r[i]| >= 1 && r[i][0] == '#' && r[i][1..] == tags.value[i]
  {
    match tags
    case None => []
    case Some(ts) => Labels(ts)
  }

  function Labels(ts: seq<string>): (r: seq<string>)
    ensures |r| == |ts|
    ensures forall i :: 0 <= i < |r| ==> |r[i]| >= 1 && r[i][0] == '#' && r[i][1..] == ts[i]
    decreases |ts|
  {
    if |ts| == 0 then [] else ["#" + ts[0]] + Labels(ts[1..])
  }
}
