/** The admin dashboard's state transitions: the initial load behind the session
    gate, the testimonial moderation handlers, the blog create/update/delete
    handlers with their edit form, and logout. Each handler is a function from
    the view state (and the abstract outcome of its request) to the next state. */
module AdminDashboard {
  import opened Common
  import opened Lists
  import opened Text
  import opened Records
  import opened Session

  /** The blog editor's fields; `tags` is the raw comma-separated text. */
  datatype BlogForm = BlogForm(
    title: string,
    excerpt: string,
    content: string,
    author: string,
    category: string,
    tags: string,
    image: Option<FileRef>)

  const EmptyBlogForm: BlogForm := BlogForm("", "", "", "", "", "", None)

  datatype Dashboard = Dashboard(
    testimonials: seq<Testimonial>,
    blogs: seq<Blog>,
    loading: bool,
    showBlogForm: bool,
    editing: Option<Blog>,
    form: BlogForm)

  const Initial: Dashboard := Dashboard([], [], true, false, None, EmptyBlogForm)

  /** The result of the mount-time load: the browser afterwards, the view, and
      whether any request was sent. */
  datatype Load = Load(browser: Browser, view: Dashboard, requested: bool)

  /** `fetchData`: without a stored token, go to the login page and send nothing;
      otherwise fetch both lists together. A 401 sends the admin to the login page
      but leaves the stored token in place; the spinner stops either way. */
  function FetchData(b: Browser, reply: Reply<(seq<Testimonial>, seq<Blog>)>): (r: Load)
    ensures r.browser.token == b.token
    ensures !HasSession(b) ==> !r.requested && r.browser.route == LoginPage && r.view == Initial
    ensures HasSession(b) ==> r.requested && !r.view.loading
    ensures HasSession(b) && reply.Ok? ==>
      r.browser == b && r.view.testimonials == reply.data.0 && r.view.blogs == reply.data.1
    ensures HasSession(b) && reply.Failed? ==> r.view.testimonials == [] && r.view.blogs == []
    ensures HasSession(b) && reply.Failed? && reply.status == Some(Unauthorized) ==> r.browser.route == LoginPage
    ensures HasSession(b) && reply.Failed? && reply.status != Some(Unauthorized) ==> r.browser == b
    ensures r.view.form == EmptyBlogForm && r.view.editing == None && !r.view.showBlogForm
  {
    if !HasSession(b) then
      Load(b.(route := LoginPage), Initial, false)
    else
      match reply
      case Ok(lists) =>
        Load(b, Initial.(testimonials := lists.0, blogs := lists.1, loading := false), true)
      case Failed(status) =>
        var after := if status == Some(Unauthorized) then b.(route := LoginPage) else b;
        Load(after, Initial.(loading := false), true)
  }

  // Testimonial moderation

  /** Selects the testimonials carrying `id` (the `t._id === id` test). */
  function HasTestimonialId(id: string): Testimonial -> bool {
    (t: Testimonial) => t.id == id
  }

  /** Selects the testimonials not carrying `id` (the `t._id !== id` test). */
  function OtherTestimonial(id: string): Testimonial -> bool {
    (t: Testimonial) => t.id != id
  }

  function HasBlogId(id: string): Blog -> bool {
    (b: Blog) => b.id == id
  }

  function OtherBlog(id: string): Blog -> bool {
    (b: Blog) => b.id != id
  }

  /** `handleStatusUpdate`: on success every entry with that id becomes the
      record the server returned; everything else stays where it was. */
  function StatusUpdate(d: Dashboard, id: string, reply: Reply<Testimonial>): (r: Dashboard)
    ensures reply.Failed? ==> r == d
    ensures r == d.(testimonials := r.testimonials)
    ensures |r.testimonials| == |d.testimonials|
    ensures forall i :: 0 <= i < |d.testimonials| && d.testimonials[i].id != id ==>
      r.testimonials[i] == d.testimonials[i]
    ensures reply.Ok? ==> forall i :: 0 <= i < |d.testimonials| && d.testimonials[i].id == id ==>
      r.testimonials[i] == reply.data
  {
    match reply
    case Ok(updated) => d.(testimonials := ReplaceWhere(d.testimonials, HasTestimonialId(id), updated))
    case Failed(_) => d
  }

  /** When the server answers with the moderated record itself, an approval
      leaves exactly the entries with that id approved and touches no other
      entry's status, and the list keeps the same ids in the same places. */
  lemma ApproveSetsStatus(d: Dashboard, id: string, updated: Testimonial)
    requires updated.id == id && updated.status == Approved
    ensures var r := StatusUpdate(d, id, Ok(updated));
      && (forall i :: 0 <= i < |r.testimonials| ==> r.testimonials[i].id == d.testimonials[i].id)
      && (forall i :: 0 <= i < |r.testimonials| && d.testimonials[i].id == id ==> r.testimonials[i].status == Approved)
      && (forall i :: 0 <= i < |r.testimonials| && d.testimonials[i].id != id ==>
            r.testimonials[i].status == d.testimonials[i].status)
  {
  }

  /** `handleDeleteTestimonial`: after a confirmed, successful delete no entry
      with that id remains and every other entry survives in its original order;
      a declined confirmation or a failed request changes nothing. */
  function DeleteTestimonial(d: Dashboard, id: string, confirmed: bool, reply: Reply<()>): (r: Dashboard)
    ensures !confirmed || reply.Failed? ==> r == d
    ensures r == d.(testimonials := r.testimonials)
    ensures IsSubsequence(r.testimonials, d.testimonials)
    ensures confirmed && reply.Ok? ==> forall i :: 0 <= i < |r.testimonials| ==> r.testimonials[i].id != id
    ensures confirmed && reply.Ok? ==> forall i :: 0 <= i < |d.testimonials| && d.testimonials[i].id != id ==>
      d.testimonials[i] in r.testimonials
  {
    if !confirmed || reply.Failed? then
      SubsequenceRefl(d.testimonials);
      d
    else
      FilterIsSubsequence(d.testimonials, OtherTestimonial(id));
      d.(testimonials := Filter(d.testimonials, OtherTestimonial(id)))
  }

  /** Removal shortens the list by exactly the number of entries carrying the id. */
  lemma DeleteCount(d: Dashboard, id: string)
    ensures |DeleteTestimonial(d, id, true, Ok(())).testimonials| +
            |Filter(d.testimonials, HasTestimonialId(id))| == |d.testimonials|
  {
    FilterPartition(d.testimonials, OtherTestimonial(id), HasTestimonialId(id));
  }

  /** The Approve, Reject and Delete buttons of one table row. */
  datatype Action = Approve | Reject | Delete

  /** Which buttons a row offers: Approve unless already approved, Reject unless
      already rejected, Delete always. */
  function ModerationActions(s: Status): (r: seq<Action>)
    ensures Approve in r <==> s != Approved
    ensures Reject in r <==> s != Rejected
    ensures Delete in r
    ensures Approve in r || Reject in r
    ensures s == Pending ==> Approve in r && Reject in r
  {
    (if s != Approved then [Approve] else []) + (if s != Rejected then [Reject] else []) + [Delete]
  }

  /** The status a moderation button asks the server for. */
  function Target(a: Action): Option<Status> {
    match a
    case Approve => Some(Approved)
    case Reject => Some(Rejected)
    case Delete => None
  }

  /** Every status button a row offers asks for a status the entry does not have. */
  lemma OfferedMovesChangeStatus(s: Status)
    ensures forall a :: a in ModerationActions(s) && Target(a).Some? ==> Target(a).value != s
  {
  }

  // Blog management

  /** `resetBlogForm`: every field empty, the form hidden, no post being edited. */
  function ResetBlogForm(d: Dashboard): (r: Dashboard)
    ensures r.testimonials == d.testimonials && r.blogs == d.blogs && r.loading == d.loading
    ensures !r.showBlogForm && r.editing.None?
    ensures r.form.title == "" && r.form.excerpt == "" && r.form.content == ""
    ensures r.form.author == "" && r.form.category == "" && r.form.tags == "" && r.form.image.None?
  {
    d.(showBlogForm := false, editing := None, form := EmptyBlogForm)
  }

  /** "Add New Blog": shows the form and nothing else; an edit in progress stays. */
  function OpenBlogForm(d: Dashboard): (r: Dashboard)
    ensures r.showBlogForm
    ensures r.editing == d.editing && r.form == d.form
    ensures r.testimonials == d.testimonials && r.blogs == d.blogs && r.loading == d.loading
  {
    d.(showBlogForm := true)
  }

  /** `blog.tags?.join(', ') || ''`. */
  function TagsText(tags: Option<seq<string>>): (r: string)
    ensures tags.None? ==> r == ""
  {
    match tags
    case None => ""
    case Some(ts) => var joined := Join(ts, ", "); if Truthy(joined) then joined else ""
  }

  /** The prefilled tag text loses nothing: for a non-empty list of comma-free
      tags, splitting it at the commas and dropping the separator's blank gives
      the stored list back. */
  lemma PrefillTagsRoundTrip(ts: seq<string>)
    requires |ts| >= 1
    requires forall k :: 0 <= k < |ts| ==> CommaFree(ts[k])
    ensures ReadTags(TagsText(Some(ts))) == ts
  {
    ReadTagsJoin(ts);
    JoinEmpty(ts, ", ");
  }

  /** The tag text is empty exactly when there is no tag list, an empty one, or
      a single empty tag. */
  lemma TagsTextEmpty(tags: Option<seq<string>>)
    ensures TagsText(tags) == "" <==> tags == None || tags == Some([]) || tags == Some([""])
  {
    if tags.Some? {
      JoinEmpty(tags.value, ", ");
    }
  }

  /** `handleEditBlog`: prefill the form from the post. Text fields are copied,
      tags become their ", "-joined text, and the image is left unset. */
  function EditBlog(d: Dashboard, blog: Blog): (r: Dashboard)
    ensures r.testimonials == d.testimonials && r.blogs == d.blogs && r.loading == d.loading
    ensures r.editing == Some(blog) && r.showBlogForm
    ensures r.form.title == blog.title && r.form.excerpt == blog.excerpt && r.form.content == blog.content
    ensures r.form.author == blog.author && r.form.category == blog.category
    ensures r.form.tags == TagsText(blog.tags)
    ensures r.form.image.None?
  {
    d.(editing := Some(blog), showBlogForm := true,
       form := BlogForm(blog.title, blog.excerpt, blog.content, blog.author, blog.category, TagsText(blog.tags), None))
  }

  /** The multipart body `handleBlogSubmit` builds: every form key, in
      declaration order, including `image` even when no file was chosen. */
  function BlogEntries(f: BlogForm): (r: Entries)
    ensures Keys(r) == ["title", "excerpt", "content", "author", "category", "tags", "image"]
    ensures r[0].1 == Text(f.title) && r[1].1 == Text(f.excerpt) && r[2].1 == Text(f.content)
    ensures r[3].1 == Text(f.author) && r[4].1 == Text(f.category) && r[5].1 == Text(f.tags)
    ensures f.image.None? <==> r[6].1 == Null
    ensures f.image.Some? ==> r[6].1 == File(f.image.value)
  {
    [("title", Text(f.title)), ("excerpt", Text(f.excerpt)), ("content", Text(f.content)),
     ("author", Text(f.author)), ("category", Text(f.category)), ("tags", Text(f.tags)),
     ("image", FileOrNull(f.image))]
  }

  datatype BlogRequest =
    | CreateBlog(entries: Entries)
    | UpdateBlog(id: string, entries: Entries)

  /** The request `handleBlogSubmit` sends: a PUT to the edited post's id when a
      post is being edited, otherwise a POST. */
  function SubmitRequest(d: Dashboard): (r: BlogRequest)
    ensures r.UpdateBlog? <==> d.editing.Some?
    ensures r.UpdateBlog? ==> r.id == d.editing.value.id
    ensures r.entries == BlogEntries(d.form)
  {
    match d.editing
    case Some(blog) => UpdateBlog(blog.id, BlogEntries(d.form))
    case None => CreateBlog(BlogEntries(d.form))
  }

  /** Editing a post and submitting it untouched sends a PUT for that post whose
      tags are the joined text and whose image entry is `null`. */
  lemma EditThenSubmit(d: Dashboard, blog: Blog)
    ensures var req := SubmitRequest(EditBlog(d, blog));
      && req == UpdateBlog(blog.id, req.entries)
      && req.entries[5] == ("tags", Text(TagsText(blog.tags)))
      && req.entries[6] == ("image", Null)
  {
  }

  /** `handleBlogSubmit`: a created post is prepended, an updated one replaces the
      entries with the edited post's id; either way the form is then reset. A
      failed save leaves the lists, the form and the edit target as they were. */
  function BlogSubmit(d: Dashboard, reply: Reply<Blog>): (r: Dashboard)
    ensures reply.Failed? ==> r == d
    ensures reply.Ok? ==> r == ResetBlogForm(d).(blogs := r.blogs)
    ensures reply.Ok? && d.editing.None? ==>
      |r.blogs| == |d.blogs| + 1 && r.blogs[0] == reply.data && r.blogs[1..] == d.blogs
    ensures reply.Ok? && d.editing.Some? ==> |r.blogs| == |d.blogs|
    ensures reply.Ok? && d.editing.Some? ==> forall i :: 0 <= i < |d.blogs| ==>
      r.blogs[i] == (if d.blogs[i].id == d.editing.value.id then reply.data else d.blogs[i])
  {
    match reply
    case Failed(_) => d
    case Ok(saved) =>
      var blogs := match d.editing
        case Some(editing) => ReplaceWhere(d.blogs, HasBlogId(editing.id), saved)
        case None => [saved] + d.blogs;
      ResetBlogForm(d).(blogs := blogs)
  }

  /** `handleDeleteBlog`: the confirmed, successful delete drops every post with
      that id and keeps the rest in order; otherwise nothing changes. */
  function DeleteBlog(d: Dashboard, id: string, confirmed: bool, reply: Reply<()>): (r: Dashboard)
    ensures !confirmed || reply.Failed? ==> r == d
    ensures r == d.(blogs := r.blogs)
    ensures IsSubsequence(r.blogs, d.blogs)
    ensures confirmed && reply.Ok? ==> forall i :: 0 <= i < |r.blogs| ==> r.blogs[i].id != id
    ensures confirmed && reply.Ok? ==> forall i :: 0 <= i < |d.blogs| && d.blogs[i].id != id ==>
      d.blogs[i] in r.blogs
  {
    if !confirmed || reply.Failed? then
      SubsequenceRefl(d.blogs);
      d
    else
      FilterIsSubsequence(d.blogs, OtherBlog(id));
      d.(blogs := Filter(d.blogs, OtherBlog(id)))
  }

  /** "Add New Blog" pressed during an edit does not start a new post: the
      pending submit is still the update of the edited post, with the same body. */
  lemma OpenBlogFormKeepsEdit(d: Dashboard, b: Blog)
    ensures SubmitRequest(OpenBlogForm(d)) == SubmitRequest(d)
    ensures OpenBlogForm(EditBlog(d, b)).editing == Some(b)
    ensures SubmitRequest(OpenBlogForm(EditBlog(d, b))).UpdateBlog?
  {
  }

  /** A successful blog delete shortens the list by exactly the number of posts
      carrying the id, so every other post survives with all its copies. */
  lemma DeleteBlogCount(d: Dashboard, id: string)
    ensures |DeleteBlog(d, id, true, Ok(())).blogs| + |Filter(d.blogs, HasBlogId(id))| == |d.blogs|
  {
    FilterPartition(d.blogs, OtherBlog(id), HasBlogId(id));
  }

  /** Creating a post and then deleting an id: the new post survives at the
      front exactly when its id differs, followed by the old posts filtered. */
  lemma CreateThenDelete(d: Dashboard, saved: Blog, id: string)
    requires d.editing.None?
    ensures DeleteBlog(BlogSubmit(d, Ok(saved)), id, true, Ok(())).blogs ==
      (if saved.id != id then [saved] else []) + Filter(d.blogs, OtherBlog(id))
  {
  }

  /** `handleLogout`: forget the token and go to the login page. */
  function Logout(b: Browser): (r: Browser)
    ensures !HasSession(r) && r.token.None?
    ensures r.route == LoginPage
  {
    Browser(None, LoginPage)
  }

  /** After logout, coming back to the dashboard redirects without a request. */
  lemma LogoutThenLoad(b: Browser, reply: Reply<(seq<Testimonial>, seq<Blog>)>)
    ensures var l := FetchData(Logout(b), reply);
      !l.requested && l.browser.route == LoginPage && l.view.loading
  {
  }
}
