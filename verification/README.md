# Resrishti frontend: admin workflow and public content views

A Dafny model of the client-side state logic of the Resrishti waste-management
site: the admin dashboard that moderates testimonials and manages blog posts,
the admin login that owns the session token, the public testimonial carousel
with its submission form, the public blog listing with search and category
filter, and the blog article page.

Every React handler is modelled as a pure function from the view state, plus
the abstract outcome of its request, to the next view state. Network calls
become a `Reply<T>` parameter (`Ok(data)` or `Failed(status?)`). `localStorage`
and the router become a `Browser` value (stored token, current route).
`window.confirm` becomes a `confirmed` flag. Image paths are strings that the views
test for truthiness, with `""` as the falsy value. The stored token is an
`Option<string>`: `None` stands for the `null` that `getItem` returns when no
token is stored, and a stored `Some("")` is falsy too, so it also counts as no
session.

Modules, one per file:

- `Common`: `Option`, `Reply`, JavaScript truthiness, `FormData` entries.
- `Lists`: the order-preserving filter, replace-by-predicate and the subsequence relation.
- `Text`: ASCII lower-casing, substring search, tag join/split.
- `ImagePath`: backslash normalisation and image URLs.
- `Records`: the testimonial and blog records.
- `Session`: the token store and route.
- `AdminDashboard`, `AdminLogin`, `TestimonialsSection`, `Blogs`, `BlogDetail`: one per page or component.

Behaviour of the code worth knowing:

- A 401 on the dashboard's initial load redirects to the login page but does
  not remove the stored token (`FetchData`).
- Saving an edited post without choosing a file still appends an `image`
  entry whose value is `null` (`BlogEntries`, `EditThenSubmit`). Whether the
  stored image survives is up to the server, which is not part of this model.
- The tags are sent as the raw text of the form; the client never splits them.
- The client does no rating check of its own before submitting a testimonial.

## Model

| member | source | states |
|---|---|---|
| Lists.Filter | src/pages/AdminDashboard.jsx:87 | the result keeps exactly the elements satisfying the predicate and is never longer than the input |
| Lists.ReplaceWhere | src/pages/AdminDashboard.jsx:70 | same length; each position holds the replacement when the old entry was selected, the old entry otherwise |
| Lists.FilterIsSubsequence | src/pages/Blogs.jsx:44-49 | a filtered list is a subsequence of the original: survivors keep their relative order |
| Lists.FilterIdempotent | src/pages/Blogs.jsx:44-49 | filtering an already filtered list with the same predicate changes nothing |
| Lists.FilterKeepsAll | src/pages/Blogs.jsx:44-49 | when every element satisfies the predicate, the filter returns the list unchanged |
| Lists.FilterPartition | src/pages/AdminDashboard.jsx:87 | the kept and the dropped elements of complementary filters add up to the input length |
| Text.Lower | src/pages/Blogs.jsx:45-46 | same length; each ASCII capital becomes its small letter and every other character is kept |
| Text.Includes | src/pages/Blogs.jsx:45-46 | the substring scan answers true exactly when the term occurs at some offset of the text |
| Text.Decimal | src/pages/Blogs.jsx:23 | the status is written as decimal digits with no leading zero, and reading the digits back gives the status |
| Text.ReadTagsJoin | src/pages/AdminDashboard.jsx:183 | a non-empty list of comma-free tags joined with ", " splits back into the same list |
| Text.JoinEmpty | src/pages/AdminDashboard.jsx:183 | a join with a non-empty separator is empty only for no parts or one empty part |
| ImagePath.ForwardSlashes | src/components/TestimonialsSection.jsx:324 | same length; every backslash becomes '/', every other character is kept, and no backslash remains |
| ImagePath.ForwardSlashesIdempotent | src/pages/BlogDetail.jsx:98 | normalising twice equals normalising once; a path is unchanged exactly when it holds no backslash |
| ImagePath.ImageSrc | src/pages/AdminDashboard.jsx:278 | the URL is the API base, then '/', then the normalised path |
| ImagePath.OptionalSrc | src/pages/AdminDashboard.jsx:276-287 | an image source exists exactly when the stored path is truthy, and it is the resolved URL; the same rule gives the carousel's author photo (src/components/TestimonialsSection.jsx:322-333) |
| AdminDashboard.FetchData | src/pages/AdminDashboard.jsx:29-59 | no token: redirect to login with no request and the view still loading; otherwise a request is sent and loading ends; success installs both lists; failure leaves both empty; a 401 redirects to login; the token is never changed |
| AdminDashboard.StatusUpdate | src/pages/AdminDashboard.jsx:62-76 | success: same length, entries with the id become the server record, all others unchanged in place; failure: the whole view unchanged; other fields never change |
| AdminDashboard.ApproveSetsStatus | src/pages/AdminDashboard.jsx:62-71 | when the server returns the approved record, the entries with that id are approved, every other status is unchanged, and the ids stay in place |
| AdminDashboard.DeleteTestimonial | src/pages/AdminDashboard.jsx:78-93 | declined or failed: nothing changes; confirmed success: no entry with the id remains, every other entry survives, and the result is a subsequence of the old list |
| AdminDashboard.DeleteCount | src/pages/AdminDashboard.jsx:87 | a successful delete shortens the list by exactly the number of entries carrying the id |
| AdminDashboard.ModerationActions | src/pages/AdminDashboard.jsx:303-327 | Approve is offered iff not approved, Reject iff not rejected, Delete always; every status has a status action and a pending entry has both |
| AdminDashboard.OfferedMovesChangeStatus | src/pages/AdminDashboard.jsx:303-320 | every status button offered asks for a status the entry does not already have |
| AdminDashboard.ResetBlogForm | src/pages/AdminDashboard.jsx:206-218 | every form field empty, the image unset, the form hidden, no post being edited, both lists untouched |
| AdminDashboard.OpenBlogForm | src/pages/AdminDashboard.jsx:348 | the form is shown; the edit target, the form data, both lists and the loading flag are kept |
| AdminDashboard.OpenBlogFormKeepsEdit | src/pages/AdminDashboard.jsx:348 | pressing "Add New Blog" during an edit keeps the edit target, so the next submit is still the same update with the same body |
| AdminDashboard.TagsText | src/pages/AdminDashboard.jsx:183 | a post without a tag list prefills an empty tag text |
| AdminDashboard.PrefillTagsRoundTrip | src/pages/AdminDashboard.jsx:183 | the prefilled tag text of a non-empty comma-free tag list reads back to that list |
| AdminDashboard.TagsTextEmpty | src/pages/AdminDashboard.jsx:183 | the tag text is empty iff the list is absent, empty, or a single empty tag |
| AdminDashboard.EditBlog | src/pages/AdminDashboard.jsx:175-187 | title, excerpt, content, author and category are copied verbatim; tags become the joined text; image is unset; the post becomes the edit target; the form is shown; the lists are untouched |
| AdminDashboard.BlogEntries | src/pages/AdminDashboard.jsx:142-145 | the body carries all seven form keys in order, with tags as raw text and an image entry that is null when no file was chosen |
| AdminDashboard.SubmitRequest | src/pages/AdminDashboard.jsx:139-167 | an update to the edited post's id exactly when a post is being edited, otherwise a create, always carrying the form's entries |
| AdminDashboard.EditThenSubmit | src/pages/AdminDashboard.jsx:142-185 | submitting a freshly prefilled edit sends an update for that post with the joined tag text and a null image entry |
| AdminDashboard.BlogSubmit | src/pages/AdminDashboard.jsx:139-173 | failure: nothing changes, including form and edit target; create: the server record is prepended and the old posts follow in order; update: same length, entries with the edited id replaced, others unchanged; success resets the form |
| AdminDashboard.DeleteBlog | src/pages/AdminDashboard.jsx:189-204 | declined or failed: nothing changes; confirmed success: no post with the id remains, others survive as a subsequence |
| AdminDashboard.DeleteBlogCount | src/pages/AdminDashboard.jsx:198 | a successful delete shortens the list by exactly the number of posts carrying the id |
| AdminDashboard.CreateThenDelete | src/pages/AdminDashboard.jsx:165-198 | after a create, deleting an id keeps the new post at the front exactly when its id differs, followed by the old posts filtered in order |
| AdminDashboard.Logout | src/pages/AdminDashboard.jsx:220-223 | the token is removed and the route is the login page |
| AdminDashboard.LogoutThenLoad | src/pages/AdminDashboard.jsx:31-35 | after logout, the dashboard's load sends no request and redirects to login |
| AdminLogin.FailureText | src/pages/AdminLogin.jsx:25 | the server's message when it is truthy, otherwise "Invalid credentials"; never empty |
| AdminLogin.HandleLogin | src/pages/AdminLogin.jsx:12-27 | success stores exactly the returned token and navigates to the dashboard; failure leaves the browser untouched and shows the failure text; navigation to the dashboard and any token change happen only on success |
| AdminLogin.LoginThenLoad | src/pages/AdminLogin.jsx:20-22 | after a login the dashboard requests data iff the returned token is truthy, and the stored token is the returned one |
| TestimonialsSection.JsRem | src/components/TestimonialsSection.jsx:124 | the truncating remainder: congruent to the dividend modulo n, strictly between -n and n, with the dividend's sign, and equal to the Euclidean remainder for non-negative dividends |
| TestimonialsSection.Next | src/components/TestimonialsSection.jsx:127-130 | autoplay off, nothing else but the index changes; an in-range index steps forward with the last wrapping to 0; validity is kept |
| TestimonialsSection.Previous | src/components/TestimonialsSection.jsx:122-125 | autoplay off, nothing else but the index changes; an in-range index steps back with 0 wrapping to n-1; validity is kept |
| TestimonialsSection.GoToSlide | src/components/TestimonialsSection.jsx:132-135 | the index becomes exactly k and autoplay is off; an in-range k keeps the state valid |
| TestimonialsSection.Tick | src/components/TestimonialsSection.jsx:48-56 | with autoplay off or no items nothing changes; otherwise the index steps forward with wrap-around and autoplay stays on |
| TestimonialsSection.NextPreviousInverse | src/components/TestimonialsSection.jsx:122-130 | next then previous, and previous then next, return to the starting index |
| TestimonialsSection.ManualNavigationStopsAutoplay | src/components/TestimonialsSection.jsx:122-135 | after previous, next or a dot click, the autoplay interval no longer changes the state |
| TestimonialsSection.TicksAdvance | src/components/TestimonialsSection.jsx:48-56 | k autoplay intervals move a valid index to (index + k) mod n and keep autoplay on |
| TestimonialsSection.Show | src/components/TestimonialsSection.jsx:296-395 | loading first; with items the current testimonial and the counter index+1 of n; without items the "no testimonials yet" state |
| TestimonialsSection.Fetched | src/components/TestimonialsSection.jsx:32-45 | loading ends; success installs the list, failure keeps it; an empty or failed fetch at mount shows "no testimonials yet" |
| TestimonialsSection.ToggleForm | src/components/TestimonialsSection.jsx:200-205 | visibility flips and the form data is kept |
| TestimonialsSection.CloseForm | src/components/TestimonialsSection.jsx:212-214 | the form is hidden and its data kept |
| TestimonialsSection.SubmissionEntries | src/components/TestimonialsSection.jsx:146-151 | the body carries all seven form keys in order, the image entry being the chosen photo, or null when none was chosen |
| TestimonialsSection.Submit | src/components/TestimonialsSection.jsx:146-172 | success resets the fields to empty, rating 5 and no photo, and hides the form; failure keeps data and visibility |
| Blogs.Fetched | src/pages/Blogs.jsx:19-42 | an array installs the posts and leaves the error; a bad status, a non-array body or a thrown error empty the posts and set the matching error message; loading always ends |
| Blogs.FilteredPosts | src/pages/Blogs.jsx:44-49 | exactly the posts whose lower-cased title or excerpt contains the lower-cased term and whose category passes, as a subsequence of the posts |
| Blogs.FilteredPostsCount | src/pages/Blogs.jsx:44-49 | the listed posts and the non-matching posts add up to all posts, so duplicates are kept with their multiplicity |
| Blogs.InitialFilterIsIdentity | src/pages/Blogs.jsx:9-10 | with the empty search and "All", the filter returns every post in order |
| Blogs.FilterIsIdempotent | src/pages/Blogs.jsx:44-49 | filtering the filtered list again changes nothing |
| Blogs.SearchIgnoresCase | src/pages/Blogs.jsx:45-46 | searching for the lower-cased term lists the same posts |
| Blogs.View | src/pages/Blogs.jsx:55-63 | spinner while loading, then the error when it is truthy, else the filtered grid with the "no articles" note iff it is empty |
| Blogs.FetchThenView | src/pages/Blogs.jsx:19-63 | a bad status or non-array body ends on the error view; a post array from the initial state shows every post |
| Blogs.CoverSrc | src/pages/Blogs.jsx:149 | the resolved image when the post has one, otherwise the fixed fallback URL |
| BlogDetail.Fetched | src/pages/BlogDetail.jsx:16-29 | loading ends; success installs the post; failure leaves the post as it was |
| BlogDetail.View | src/pages/BlogDetail.jsx:31-32 | "Loading..." while loading, "Blog not found" when there is no post, else the article |
| BlogDetail.FetchThenView | src/pages/BlogDetail.jsx:13-32 | from the mount state a failed fetch ends on not-found and a successful one shows the fetched post |
| BlogDetail.FeaturedImage | src/pages/BlogDetail.jsx:90-103 | the featured image exists exactly when the image path is truthy, resolved against the base |
| BlogDetail.TagLabels | src/pages/BlogDetail.jsx:120-124 | one label per stored tag, in order, each '#' followed by the tag; none without a tag list |

## Left out

- Network, storage and navigation are not executed: each request is an abstract `Reply` parameter, `localStorage` and the router are the `Browser` value, and `window.confirm` is a flag.
- Toast notifications, console logging, JSX markup, CSS classes, GSAP and framer-motion animation, and the ReactQuill editor configuration are presentation only.
- `Promise.all` concurrency, stale closures over the lists in async handlers, `setInterval` timing and unmount races: every event is one sequential step.
- The per-field input handlers (`handleBlogInputChange`, `handleQuillChange`, `handleInputChange`), the dashboard's tab switch and the blog page's search box and category buttons are single-field setters with no logic; the filter they feed is modelled.
- The authorisation header and URL of each request are not modelled; only the blog and testimonial form bodies are.
- AdminDashboard.FetchData: a failing `Promise.all` is one failure with one status; which of the two requests failed is not distinguished.
- AdminDashboard.BlogEntries and TestimonialsSection.SubmissionEntries: `handleBlogInputChange` and `handleInputChange` store `files[0]`, which is `undefined` when the browser clears the file input after a cancelled pick; `FormData.append` then sends the text "undefined", which `Option<FileRef>` cannot represent, so the model's image entry is only ever a chosen file or `null`.
- TestimonialsSection.SubmissionEntries: the rating select delivers its value as text, while the default is the number 5; both serialise identically, so the model keeps an integer.
- BlogDetail.Fetched: a 2xx response whose body is `null` would also show "Blog not found"; the model treats every successful reply as a post.
- AdminLogin.HandleLogin: a response without a `token` field would store the text "undefined"; the model's reply always carries a token string.
- Text.Lower: lower-casing is ASCII-only; full Unicode case mapping and locale rules are not modelled.
- Server behaviour is not part of this model: splitting the tag text, slugs, the pending default of new testimonials, filtering the public list to approved entries, keeping the stored image on update, and rating bounds.
- Date formatting (`toLocaleDateString`) and the "5 min read" text are locale or constant presentation.
- The static marketing pages, the scroll-driven process animation and the route table use no client state worth modelling.
