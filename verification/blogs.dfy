/** The public blog listing: the fetch that fills it, the search-and-category
    filter, what the page renders, and each card's cover image. */
module Blogs {
  import opened Common
  import opened Lists
  import opened Text
  import opened Records
  import ImagePath

  /** The category buttons; "All" switches the category test off. */
  const AllCategories: string := "All"

  /** The cover used for a post without an image. */
  const FallbackCover: string :=
    "https://images.unsplash.com/photo-1532996122724-e3c354a0b15b?auto=format&fit=crop&q=80"

  const InvalidFormat: string := "Invalid data format received from server"

  datatype Listing = Listing(search: string, category: string, posts: seq<Blog>, loading: bool, error: Option<string>)

  const Initial: Listing := Listing("", AllCategories, [], true, None)

  /** The decoded JSON body of a 2xx response: an array of posts or anything else. */
  datatype Payload = PostArray(posts: seq<Blog>) | NotAnArray

  /** What `fetch` produced: a non-2xx status, a decoded body, or a thrown
      error (network failure, undecodable body) with its message. */
  datatype BlogsReply = NotOk(status: nat) | Body(payload: Payload) | Thrown(message: string)

  /** The message of the error thrown for a non-2xx status. */
  function HttpErrorText(status: nat): string {
    "HTTP error! status: " + Decimal(status)
  }

  /** `fetchBlogs`: an array becomes the posts and leaves the error alone; a bad
      status, a non-array body or a thrown error empty the posts and record an
      error. `loading` is cleared in every case. */
  function Fetched(l: Listing, reply: BlogsReply): (r: Listing)
    ensures !r.loading && r.search == l.search && r.category == l.category
    ensures reply.Body? && reply.payload.PostArray? ==> r.posts == reply.payload.posts && r.error == l.error
    ensures !(reply.Body? && reply.payload.PostArray?) ==> r.posts == [] && r.error.Some?
    ensures reply.NotOk? ==> r.error == Some(HttpErrorText(reply.status))
    ensures reply.Body? && reply.payload.NotAnArray? ==> r.error == Some(InvalidFormat)
    ensures reply.Thrown? ==> r.error == Some(reply.message)
  {
    match reply
    case NotOk(status) => l.(posts := [], error := Some(HttpErrorText(status)), loading := false)
    case Body(PostArray(posts)) => l.(posts := posts, loading := false)
    case Body(NotAnArray) => l.(posts := [], error := Some(InvalidFormat), loading := false)
    case Thrown(message) => l.(posts := [], error := Some(message), loading := false)
  }

  /** The per-post test: the lower-cased title or excerpt contains the
      lower-cased search term, and the category is "All" or the post's own. */
  predicate Matches(post: Blog, search: string, category: string) {
    var term := Lower(search);
    && (Contains(Lower(post.title), term) || Contains(Lower(post.excerpt), term))
    && (category == AllCategories || post.category == category)
  }

  function Matcher(search: string, category: string): Blog -> bool {
    post => Matches(post, search, category)
  }

  /** `filteredPosts`: exactly the matching posts, in their fetched order. */
  function FilteredPosts(l: Listing): (r: seq<Blog>)
    ensures |r| <= |l.posts|
    ensures forall i :: 0 <= i < |r| ==> r[i] in l.posts && Matches(r[i], l.search, l.category)
    ensures forall i :: 0 <= i < |l.posts| && Matches(l.posts[i], l.search, l.category) ==> l.posts[i] in r
    ensures IsSubsequence(r, l.posts)
  {
    FilterIsSubsequence(l.posts, Matcher(l.search, l.category));
    Filter(l.posts, Matcher(l.search, l.category))
  }

  function NonMatcher(search: string, category: string): Blog -> bool {
    post => !Matches(post, search, category)
  }

  /** The grid leaves out exactly the non-matching posts: the counts add up, so
      a post listed twice is shown twice. */
  lemma FilteredPostsCount(l: Listing)
    ensures |FilteredPosts(l)| + |Filter(l.posts, NonMatcher(l.search, l.category))| == |l.posts|
  {
    FilterPartition(l.posts, Matcher(l.search, l.category), NonMatcher(l.search, l.category));
  }

  /** With the initial empty search and "All", every post is listed, in order. */
  lemma InitialFilterIsIdentity(l: Listing)
    requires l.search == "" && l.category == AllCategories
    ensures FilteredPosts(l) == l.posts
  {
    forall i | 0 <= i < |l.posts|
      ensures Matcher(l.search, l.category)(l.posts[i])
    {
      ContainsEmpty(Lower(l.posts[i].title));
    }
    FilterKeepsAll(l.posts, Matcher(l.search, l.category));
  }

  /** Filtering the filtered list again with the same search changes nothing. */
  lemma FilterIsIdempotent(l: Listing)
    ensures FilteredPosts(l.(posts := FilteredPosts(l))) == FilteredPosts(l)
  {
    FilterIdempotent(l.posts, Matcher(l.search, l.category));
  }

  /** The search ignores the case of the term: searching for its lower-cased
      form lists the same posts. */
  lemma SearchIgnoresCase(l: Listing)
    ensures FilteredPosts(l.(search := Lower(l.search))) == FilteredPosts(l)
  {
    assert Lower(Lower(l.search)) == Lower(l.search);
    FilterCongruent(l.posts, Matcher(Lower(l.search), l.category), Matcher(l.search, l.category));
  }

  /** What the page body shows: the spinner, the error text, or the grid
      (with the "No articles found" note when nothing matches). */
  datatype PageView = Spinner | ErrorText(message: string) | Grid(posts: seq<Blog>, noneFound: bool)

  /** Render priority: loading, then a truthy error, then the filtered grid. */
  function View(l: Listing): (r: PageView)
    ensures l.loading <==> r.Spinner?
    ensures !l.loading && l.error.Some? && Truthy(l.error.value) <==> r.ErrorText?
    ensures r.ErrorText? ==> Some(r.message) == l.error
    ensures r.Grid? ==> r.posts == FilteredPosts(l) && (r.noneFound <==> |r.posts| == 0)
  {
    if l.loading then Spinner
    else if l.error.Some? && Truthy(l.error.value) then ErrorText(l.error.value)
    else
      var shown := FilteredPosts(l);
      Grid(shown, |shown| == 0)
  }

  /** A bad status or a non-array body always ends on the error view; a post
      array from the initial state always ends on the grid. */
  lemma FetchThenView(reply: BlogsReply)
    ensures reply.NotOk? || (reply.Body? && reply.payload.NotAnArray?) ==> View(Fetched(Initial, reply)).ErrorText?
    ensures reply.Body? && reply.payload.PostArray? ==>
      View(Fetched(Initial, reply)) == Grid(reply.payload.posts, |reply.payload.posts| == 0)
  {
    if reply.NotOk? {
      assert |HttpErrorText(reply.status)| > 0;
    }
    if reply.Body? && reply.payload.PostArray? {
      InitialFilterIsIdentity(Fetched(Initial, reply));
    }
  }

  /** A card's cover: the resolved image when the post has one, else the fallback. */
  function CoverSrc(base: string, post: Blog): (r: string)
    ensures Truthy(post.image) ==> r == ImagePath.ImageSrc(base, post.image)
    ensures !Truthy(post.image) ==> r == FallbackCover
  {
    match ImagePath.OptionalSrc(base, post.image)
    case Some(src) => src
    case None => FallbackCover
  }
}
