/** The public testimonial section: a carousel over the approved testimonials
    with autoplay, its loading/empty display, and the public submission form. */
module TestimonialsSection {
  import opened Common
  import opened Records

  /** JavaScript's `%`: the remainder takes the sign of the dividend, unlike
      Dafny's Euclidean `%`. */
  function JsRem(a: int, n: int): (r: int)
    requires n > 0
    ensures -n < r < n
    ensures a >= 0 ==> 0 <= r && r == a % n
    ensures a <= 0 ==> r <= 0
    ensures (a - r) % n == 0
  {
    if a >= 0 then
      var r := a % n;
      ModUnique(a - r, n, a / n, 0);
      r
    else
      var r := -((-a) % n);
      assert -a == ((-a) / n) * n + (-a) % n;
      ModUnique(a - r, n, -((-a) / n), 0);
      r
  }

  datatype Carousel = Carousel(items: seq<Testimonial>, index: int, autoplay: bool, loading: bool)

  /** Mount state: no testimonials yet, first slide, autoplay on, loading. */
  const Initial: Carousel := Carousel([], 0, true, true)

  /** The index points at a testimonial, or is 0 while there is none. */
  predicate Valid(c: Carousel) {
    && 0 <= c.index
    && (|c.items| == 0 ==> c.index == 0)
    && (|c.items| > 0 ==> c.index < |c.items|)
  }

  lemma ModFacts(a: int, n: int)
    requires n > 0
    ensures 0 <= a < n ==> a % n == a
    ensures n <= a < 2 * n ==> a % n == a - n
  {
  }

  /** `goToNext`: stop autoplay and step forward, wrapping from the last to the first. */
  function Next(c: Carousel): (r: Carousel)
    requires |c.items| > 0
    ensures r == c.(index := r.index, autoplay := false)
    ensures 0 <= c.index < |c.items| ==> r.index == (if c.index == |c.items| - 1 then 0 else c.index + 1)
    ensures Valid(c) ==> Valid(r)
  {
    ModFacts(c.index + 1, |c.items|);
    c.(autoplay := false, index := JsRem(c.index + 1, |c.items|))
  }

  /** `goToPrevious`: stop autoplay and step back, wrapping from the first to the last. */
  function Previous(c: Carousel): (r: Carousel)
    requires |c.items| > 0
    ensures r == c.(index := r.index, autoplay := false)
    ensures 0 <= c.index < |c.items| ==> r.index == (if c.index == 0 then |c.items| - 1 else c.index - 1)
    ensures Valid(c) ==> Valid(r)
  {
    ModFacts(c.index - 1 + |c.items|, |c.items|);
    c.(autoplay := false, index := JsRem(c.index - 1 + |c.items|, |c.items|))
  }

  /** `goToSlide(k)`: stop autoplay and show slide `k`. */
  function GoToSlide(c: Carousel, k: int): (r: Carousel)
    ensures r.index == k && !r.autoplay
    ensures r.items == c.items && r.loading == c.loading
    ensures Valid(c) && 0 <= k < |c.items| ==> Valid(r)
  {
    c.(autoplay := false, index := k)
  }

  /** One autoplay interval: advance only while autoplay is on and there is
      something to show; autoplay itself is never switched off here. */
  function Tick(c: Carousel): (r: Carousel)
    ensures r == c.(index := r.index)
    ensures !c.autoplay || |c.items| == 0 ==> r == c
    ensures c.autoplay && 0 <= c.index < |c.items| ==>
      r.index == (if c.index == |c.items| - 1 then 0 else c.index + 1)
    ensures Valid(c) ==> Valid(r)
  {
    if c.autoplay && |c.items| > 0 then
      ModFacts(c.index + 1, |c.items|);
      c.(index := JsRem(c.index + 1, |c.items|))
    else c
  }

  /** Forward then back, or back then forward, returns to the same slide. */
  lemma NextPreviousInverse(c: Carousel)
    requires Valid(c) && |c.items| > 0
    ensures Previous(Next(c)).index == c.index
    ensures Next(Previous(c)).index == c.index
  {
  }

  /** After any manual navigation the autoplay interval no longer moves the slide. */
  lemma ManualNavigationStopsAutoplay(c: Carousel, k: int)
    requires |c.items| > 0
    ensures Tick(Next(c)) == Next(c)
    ensures Tick(Previous(c)) == Previous(c)
    ensures Tick(GoToSlide(c, k)) == GoToSlide(c, k)
  {
  }

  /** `k` autoplay intervals in a row. */
  function Ticks(c: Carousel, k: nat): Carousel
    decreases k
  {
    if k == 0 then c else Tick(Ticks(c, k - 1))
  }

  /** With autoplay on, `k` intervals move the slide `k` places forward, modulo
      the number of testimonials. */
  lemma {:induction false} TicksAdvance(c: Carousel, k: nat)
    requires Valid(c) && c.autoplay && |c.items| > 0
    ensures Valid(Ticks(c, k)) && Ticks(c, k).autoplay && Ticks(c, k).items == c.items
    ensures Ticks(c, k).index == (c.index + k) % |c.items|
    decreases k
  {
    var n := |c.items|;
    if k == 0 {
      ModFacts(c.index, n);
    } else {
      TicksAdvance(c, k - 1);
      ModStep(c.index + k - 1, n);
    }
  }

  lemma ModStep(a: int, n: int)
    requires a >= 0 && n > 0
    ensures (a % n + 1) % n == (a + 1) % n
  {
    var q := a / n;
    var m := a % n;
    assert a == q * n + m;
    if m + 1 < n {
      assert a + 1 == q * n + (m + 1);
      ModUnique(a + 1, n, q, m + 1);
    } else {
      assert a + 1 == (q + 1) * n;
      ModUnique(a + 1, n, q + 1, 0);
    }
  }

  lemma ModUnique(a: int, n: int, q: int, m: int)
    requires n > 0 && 0 <= m < n && a == q * n + m
    ensures a % n == m
  {
    var q' := a / n;
    var m' := a % n;
    assert a == q' * n + m';
    var d := q - q';
    assert d * n == m' - m by {
      assert q * n - q' * n == (q - q') * n;
    }
    if d >= 1 {
      MulAtLeast(d, n);
    } else if d <= -1 {
      MulAtLeast(-d, n);
    }
    assert d == 0;
  }

  lemma MulAtLeast(d: int, n: int)
    requires d >= 1 && n > 0
    ensures d * n >= n
  {
  }

  /** What the section shows in place of the carousel. */
  datatype Display =
    | LoadingTestimonials
    | Slide(current: Testimonial, position: nat, total: nat)
    | NoTestimonialsYet

  /** Loading first; then the current slide with its "position / total" counter
      when there are testimonials, else the invitation to be the first. */
  function Show(c: Carousel): (r: Display)
    requires Valid(c)
    ensures c.loading <==> r.LoadingTestimonials?
    ensures !c.loading && |c.items| > 0 ==>
      r.Slide? && r.current == c.items[c.index] && r.position == c.index + 1 && r.total == |c.items|
    ensures r.Slide? ==> 1 <= r.position <= r.total
    ensures !c.loading && |c.items| == 0 <==> r.NoTestimonialsYet?
  {
    if c.loading then LoadingTestimonials
    else if |c.items| > 0 then Slide(c.items[c.index], c.index + 1, |c.items|)
    else NoTestimonialsYet
  }

  /** `fetchTestimonials`: a response replaces the list, a failure keeps it;
      the spinner stops either way. An empty or failed fetch at mount shows the
      "no testimonials yet" state, never an error. */
  function Fetched(c: Carousel, reply: Reply<seq<Testimonial>>): (r: Carousel)
    ensures !r.loading && r.index == c.index && r.autoplay == c.autoplay
    ensures reply.Ok? ==> r.items == reply.data
    ensures reply.Failed? ==> r.items == c.items
    ensures Valid(c) && |c.items| == 0 ==> Valid(r)
    ensures Valid(c) && |c.items| == 0 && (reply.Failed? || reply.data == []) ==> Show(r) == NoTestimonialsYet
  {
    match reply
    case Ok(items) => c.(items := items, loading := false)
    case Failed(_) => c.(loading := false)
  }

  // Submission form

  datatype SubmissionForm = SubmissionForm(
    name: string,
    position: string,
    company: string,
    industry: string,
    testimonial: string,
    rating: int,
    image: Option<FileRef>)

  const DefaultForm: SubmissionForm := SubmissionForm("", "", "", "", "", 5, None)

  datatype FormPanel = FormPanel(form: SubmissionForm, visible: bool)

  const ClosedPanel: FormPanel := FormPanel(DefaultForm, false)

  /** "Share Your Experience" toggles the form; the close button hides it. */
  function ToggleForm(p: FormPanel): (r: FormPanel)
    ensures r.form == p.form && r.visible != p.visible
  {
    p.(visible := !p.visible)
  }

  function CloseForm(p: FormPanel): (r: FormPanel)
    ensures r.form == p.form && !r.visible
  {
    p.(visible := false)
  }

  /** The multipart body: every form key in declaration order, `image` included
      as `null` when no photo was chosen. */
  function SubmissionEntries(f: SubmissionForm): (r: Entries)
    ensures Keys(r) == ["name", "position", "company", "industry", "testimonial", "rating", "image"]
    ensures r[0].1 == Text(f.name) && r[1].1 == Text(f.position) && r[2].1 == Text(f.company)
    ensures r[3].1 == Text(f.industry) && r[4].1 == Text(f.testimonial) && r[5].1 == Number(f.rating)
    ensures f.image.None? <==> r[6].1 == Null
    ensures f.image.Some? ==> r[6].1 == File(f.image.value)
  {
    [("name", Text(f.name)), ("position", Text(f.position)), ("company", Text(f.company)),
     ("industry", Text(f.industry)), ("testimonial", Text(f.testimonial)), ("rating", Number(f.rating)),
     ("image", FileOrNull(f.image))]
  }

  /** `handleSubmit`: success resets the form to its defaults (empty text,
      rating 5, no photo) and hides it; failure keeps what was typed, shown. */
  function Submit(p: FormPanel, reply: Reply<()>): (r: FormPanel)
    ensures reply.Failed? ==> r == p
    ensures reply.Ok? ==> !r.visible
    ensures reply.Ok? ==> r.form.name == "" && r.form.position == "" && r.form.company == ""
    ensures reply.Ok? ==> r.form.industry == "" && r.form.testimonial == ""
    ensures reply.Ok? ==> r.form.rating == 5 && r.form.image.None?
  {
    match reply
    case Ok(_) => ClosedPanel
    case Failed(_) => p
  }
}
