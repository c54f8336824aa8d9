/** The post handlers of backend/routes/post.js: slug normalisation and the loop that
    makes a slug unique, the defaults of a created post, the public list with its
    filters and paging, and the per-visitor view throttle with its view counters. The
    database and the module-level `viewTimestamps` map are the fields of a `Site`. */
module PostRoutes {
  import opened Common
  import opened Text
  import opened PostModel

  // ---------------------------------------------------------------------------------
  // Slugs.

  /** The `slug` field when given, the title otherwise (`req.body.slug || req.body.title`). */
  function SlugSource(slug: string, title: string): string
  {
    if slug != "" then slug else title
  }

  /** The server's slug normalisation: lowercase, trim, whitespace runs to '-', then every
      character outside [a-z0-9-] dropped. */
  function BaseSlug(s: string): (r: string)
    ensures forall c :: c in r ==> IsSlugChar(c)
  {
    Filter(DashSpaceRuns(Trim(Lower(s))), IsSlugChar)
  }

  /** A string made of slug characters is its own base slug, so normalising is idempotent. */
  lemma BaseSlugFixpoint(s: string)
    requires forall c :: c in s ==> IsSlugChar(c)
    ensures BaseSlug(s) == s
  {
    SlugTextNormalised(s);
    assert forall i :: 0 <= i < |s| ==> IsSlugChar(s[i]);
    FilterAll(s, IsSlugChar);
    BaseSlugOfNormalised(s);
  }

  /** Lowercasing, trimming and joining whitespace runs leave slug characters alone. */
  lemma SlugTextNormalised(s: string)
    requires forall c :: c in s ==> IsSlugChar(c)
    ensures DashSpaceRuns(Trim(Lower(s))) == s
  {
    assert forall i :: 0 <= i < |s| ==> IsSlugChar(s[i]);
    assert Lower(s) == s by {
      LowerNoCapitals(s);
    }
    assert Trim(s) == s by {
      if s != [] {
        SlugCharNotSpace(s[0]);
        SlugCharNotSpace(s[|s| - 1]);
      }
      TrimOfTrimmed(s);
    }
    assert DashSpaceRuns(s) == s by {
      forall i | 0 <= i < |s|
        ensures !IsSpace(s[i])
      {
        SlugCharNotSpace(s[i]);
      }
      DashSpaceRunsNoSpace(s);
    }
  }

  lemma BaseSlugOfNormalised(s: string)
    requires DashSpaceRuns(Trim(Lower(s))) == s
    requires Filter(s, IsSlugChar) == s
    ensures BaseSlug(s) == s
  {
  }

  lemma BaseSlugIdempotent(s: string)
    ensures BaseSlug(BaseSlug(s)) == BaseSlug(s)
  {
    BaseSlugFixpoint(BaseSlug(s));
  }

  /** The `k`-th alternative slug, `${baseSlug}-${k}`. */
  function Candidate(base: string, k: nat): (r: string)
    ensures |r| > |base| + 1 && r[..|base|] == base && r[|base|] == '-'
  {
    base + "-" + NatToString(k)
  }

  /** Different counters give different alternatives. */
  lemma CandidateInjective(base: string, j: nat, k: nat)
    requires Candidate(base, j) == Candidate(base, k)
    ensures j == k
  {
    assert Candidate(base, j)[|base| + 1..] == NatToString(j);
    assert Candidate(base, k)[|base| + 1..] == NatToString(k);
    NatToStringInjective(j, k);
  }

  /** The alternatives with counters 1 .. n-1. */
  function CandidatesBelow(base: string, n: nat): set<string>
  {
    set j | 1 <= j < n :: Candidate(base, j)
  }

  lemma {:induction false} CandidatesBelowSize(base: string, n: nat)
    requires n >= 1
    ensures |CandidatesBelow(base, n)| == n - 1
  {
    if n > 1 {
      CandidatesBelowSize(base, n - 1);
      var prev := CandidatesBelow(base, n - 1);
      var x := Candidate(base, n - 1);
      assert CandidatesBelow(base, n) == prev + {x};
      if x in prev {
        var j :| 1 <= j < n - 1 && Candidate(base, j) == x;
        CandidateInjective(base, j, n - 1);
      }
    }
  }

  lemma {:induction false} SubsetSize<T>(a: set<T>, b: set<T>)
    requires a <= b
    ensures |a| <= |b|
    decreases |a|
  {
    if a != {} {
      var x :| x in a;
      SubsetSize(a - {x}, b - {x});
    }
  }

  /** The first counter from `k` on whose alternative is free, given that those below `k`
      are all taken. */
  function FirstFreeCounter(base: string, taken: set<string>, k: nat): (r: nat)
    requires k >= 1 && CandidatesBelow(base, k) <= taken
    ensures r >= k && Candidate(base, r) !in taken
    ensures forall j :: k <= j < r ==> Candidate(base, j) in taken
    decreases |taken| - (k - 1)
  {
    if Candidate(base, k) !in taken then k
    else
      assert CandidatesBelow(base, k + 1) == CandidatesBelow(base, k) + {Candidate(base, k)};
      CandidatesBelowSize(base, k + 1);
      SubsetSize(CandidatesBelow(base, k + 1), taken);
      FirstFreeCounter(base, taken, k + 1)
  }

  /** The slug a new post gets: the base slug when no post has it, otherwise the first
      free alternative. */
  function UniqueSlug(base: string, taken: set<string>): (r: string)
    ensures r !in taken
    ensures base !in taken ==> r == base
    ensures base in taken ==> exists k :: (k >= 1 && r == Candidate(base, k) &&
              forall j :: 1 <= j < k ==> Candidate(base, j) in taken)
  {
    if base !in taken then base else Candidate(base, FirstFreeCounter(base, taken, 1))
  }

  /** The `while (await Post.findOne({ slug }))` loop. */
  method ChooseSlug(base: string, taken: set<string>) returns (slug: string)
    ensures slug == UniqueSlug(base, taken)
  {
    slug := base;
    var counter: nat := 1;
    while slug in taken
      invariant counter >= 1
      invariant slug == if counter == 1 then base else Candidate(base, counter - 1)
      invariant counter > 1 ==> base in taken
      invariant CandidatesBelow(base, counter - 1) <= taken
      decreases |taken| - (counter - 1)
    {
      if counter > 1 {
        assert CandidatesBelow(base, counter) == CandidatesBelow(base, counter - 1) + {slug};
        CandidatesBelowSize(base, counter);
        SubsetSize(CandidatesBelow(base, counter), taken);
      } else {
        assert CandidatesBelow(base, counter) == {};
      }
      slug := Candidate(base, counter);
      counter := counter + 1;
    }
    if counter > 1 {
      var r := FirstFreeCounter(base, taken, 1);
      assert Candidate(base, r) !in CandidatesBelow(base, counter - 1);
    }
  }

  // ---------------------------------------------------------------------------------
  // Create.

  /** The request body of a create; an absent string or list is "" or []. */
  datatype PostInput = PostInput(
    title: string,
    slug: string,
    content: string,
    excerpt: string,
    category: string,
    subCategory: string,
    source: string,
    tags: seq<string>,
    keywords: seq<string>,
    relatedTickers: seq<string>,
    referenceLinks: seq<string>,
    status: string,
    scheduledFor: Option<int>)

  const DefaultCategory := "finance-news"
  const DefaultSubCategory := "stocks"

  /** `x || fallback` for a string. */
  function OrDefault(x: string, fallback: string): string
  {
    if x != "" then x else fallback
  }

  /** The trim setter applied to `x || fallback` for a fallback with no edge whitespace. */
  function TrimOr(x: string, fallback: string): (r: string)
    requires IsTrimmed(fallback)
    ensures r == Trim(OrDefault(x, fallback))
  {
    if x != "" then Trim(x) else TrimOfTrimmed(fallback); fallback
  }

  /** The document `Post.create` stores (before its pre-save hook), with the schema's trim
      setters applied, or `None` when schema validation rejects it: an unknown status, or a
      required title or content that is empty. The slug is stored as given: the trim setter
      leaves every slug the route generates unchanged (`SlugStaysTrimmed`). */
  function Document(input: PostInput, slug: string, clean: string, id: nat, now: int): (r: Option<Post>)
    ensures r.Some? <==> ParseStatus(OrDefault(input.status, "draft")).Some? && Trim(input.title) != [] && clean != []
    ensures r.Some? ==> r.value.slug == slug && r.value.views == 0
  {
    match ParseStatus(OrDefault(input.status, "draft"))
    case None => None
    case Some(status) =>
      if Trim(input.title) == [] || clean == [] then None
      else Some(Post(id, Trim(input.title), slug, Trim(input.excerpt), clean,
                     TrimOr(input.category, DefaultCategory), TrimOr(input.subCategory, DefaultSubCategory),
                     Trim(input.source), TrimAll(input.tags), TrimAll(input.keywords), TrimAll(input.relatedTickers),
                     TrimAll(input.referenceLinks), status, input.scheduledFor, 0, "", "", now))
  }

  /** The fields of a created post that the request leaves out take their defaults. */
  lemma CreateDefaults(slug: string, clean: string, id: nat, now: int, title: string, content: string)
    requires Trim(title) != [] && clean != []
    ensures var p := Document(PostInput(title, "", content, "", "", "", "", [], [], [], [], "", None), slug, clean, id, now);
      p.Some? && p.value.category == "finance-news" && p.value.subCategory == "stocks" &&
      p.value.status == Draft && p.value.scheduledFor == None && p.value.views == 0 && p.value.source == "" &&
      p.value.tags == [] && p.value.keywords == [] && p.value.relatedTickers == [] && p.value.referenceLinks == []
  {
  }

  datatype CreateOutcome = CreateBadInput | CreateFailed | Created(post: Post)

  // ---------------------------------------------------------------------------------
  // Public list.

  /** The list query's filter. `if (category)` tests the raw query value, but the schema's
      trim setters cast the filter, so a given category or tag is compared trimmed. */
  predicate Listed(p: Post, category: string, tag: string)
  {
    p.status == Published && (category == "" || p.category == Trim(category)) && (tag == "" || Trim(tag) in p.tags)
  }

  /** The posts the list query matches, in the order the database returns them. */
  function Matching(posts: seq<Post>, category: string, tag: string): (r: seq<Post>)
    ensures forall p :: p in r ==> p in posts && Listed(p, category, tag)
  {
    Filter(posts, p => Listed(p, category, tag))
  }

  /** A post is listed exactly when it is stored and matches. */
  lemma MatchingIff(posts: seq<Post>, category: string, tag: string, p: Post)
    ensures p in Matching(posts, category, tag) <==> p in posts && Listed(p, category, tag)
  {
    if p in posts && Listed(p, category, tag) {
      FilterKeeps(posts, x => Listed(x, category, tag), p);
    }
  }

  /** `.skip((page - 1) * limit).limit(Number(limit))` with the query defaults page 1 and
      limit 10: a negative skip is a database error (`None`), limit 0 means no limit, and a
      negative limit counts like its absolute value. */
  function PublicList(posts: seq<Post>, category: string, tag: string, page: Option<int>, limit: Option<int>): (r: Option<seq<Post>>)
    ensures r.Some? ==> forall p :: p in r.value ==> p in posts && Listed(p, category, tag)
  {
    var pg := if page.Some? then page.value else 1;
    var lim := if limit.Some? then limit.value else 10;
    var skip := (pg - 1) * lim;
    if skip < 0 then None
    else
      var matching := Matching(posts, category, tag);
      var n := if lim == 0 then |matching| else if lim < 0 then -lim else lim;
      Some(Slice(matching, skip, n))
  }

  /** With a positive limit page `page` holds exactly the matching posts from offset
      `(page - 1) * limit` on, in order, as many as the limit allows, and none past the end. */
  lemma PageContents(posts: seq<Post>, category: string, tag: string, page: nat, limit: nat)
    requires page >= 1 && limit >= 1
    ensures var m := Matching(posts, category, tag);
      var lo := (page - 1) * limit;
      var a := PublicList(posts, category, tag, Some(page), Some(limit));
      a.Some? &&
      (lo <= |m| ==> |a.value| == Min(limit, |m| - lo)) &&
      (lo >= |m| ==> a.value == []) &&
      (forall i :: 0 <= i < |a.value| ==> lo + i < |m| && a.value[i] == m[lo + i])
  {
    var m := Matching(posts, category, tag);
    var lo := (page - 1) * limit;
    assert PublicList(posts, category, tag, Some(page), Some(limit)) == Some(Slice(m, lo, limit));
    SliceContents(m, lo, limit);
  }

  /** With a positive limit every page has at most `limit` posts, and two consecutive pages
      together are the matching posts from the first one's offset on, without gap or overlap. */
  lemma PagesTile(posts: seq<Post>, category: string, tag: string, page: nat, limit: nat)
    requires page >= 1 && limit >= 1
    ensures var m := Matching(posts, category, tag);
      var a := PublicList(posts, category, tag, Some(page), Some(limit));
      var b := PublicList(posts, category, tag, Some(page + 1), Some(limit));
      a.Some? && b.Some? && |a.value| <= limit &&
      a.value + b.value == Slice(m, (page - 1) * limit, 2 * limit)
  {
    var m := Matching(posts, category, tag);
    var lo := (page - 1) * limit;
    assert page * limit == lo + limit;
    var a := Slice(m, lo, limit);
    var b := Slice(m, lo + limit, limit);
    assert (page + 1 - 1) * limit == lo + limit;
    assert PublicList(posts, category, tag, Some(page), Some(limit)) == Some(a);
    assert PublicList(posts, category, tag, Some(page + 1), Some(limit)) == Some(b);
    SliceTiles(m, lo, limit);
  }

  // ---------------------------------------------------------------------------------
  // Views.

  const ThrottleWindow: int := 3000

  /** The throttle key `${ip}_${slug}`. */
  function ViewKey(ip: string, slug: string): string
  {
    ip + "_" + slug
  }

  /** Keys of different visitors or different posts never collide when the addresses hold
      no '_' (as IPv4 and IPv6 addresses do not). */
  lemma ViewKeyInjective(ip1: string, slug1: string, ip2: string, slug2: string)
    requires '_' !in ip1 && '_' !in ip2
    requires ViewKey(ip1, slug1) == ViewKey(ip2, slug2)
    ensures ip1 == ip2 && slug1 == slug2
  {
    var k := ViewKey(ip1, slug1);
    assert k[|ip1|] == '_' && k[|ip2|] == '_';
    assert ip1 == k[..|ip1|] == ip2;
    assert slug1 == k[|ip1| + 1..] == slug2;
  }

  /** One day's `Summary` document; an absent one reads as its defaults. */
  datatype DaySummary = DaySummary(views: nat, postsCreated: nat, topPostSlug: Option<string>)

  function SummaryOf(summaries: map<int, DaySummary>, day: int): DaySummary
  {
    if day in summaries then summaries[day] else DaySummary(0, 0, None)
  }

  /** The upsert `{ $inc: { views: 1 }, $set: { topPostSlug: slug } }`: the day's
      "top post" is simply the last one viewed. */
  function CountView(summaries: map<int, DaySummary>, day: int, slug: string): (r: map<int, DaySummary>)
    ensures day in r && r[day].views == SummaryOf(summaries, day).views + 1 && r[day].topPostSlug == Some(slug)
    ensures r[day].postsCreated == SummaryOf(summaries, day).postsCreated
    ensures forall d :: d != day ==> SummaryOf(r, d) == SummaryOf(summaries, d)
  {
    var s := SummaryOf(summaries, day);
    summaries[day := s.(views := s.views + 1, topPostSlug := Some(slug))]
  }

  /** The upsert `{ $inc: { postsCreated: 1 } }`. */
  function CountCreated(summaries: map<int, DaySummary>, day: int): (r: map<int, DaySummary>)
    ensures day in r && r[day].postsCreated == SummaryOf(summaries, day).postsCreated + 1
    ensures r[day].(postsCreated := SummaryOf(summaries, day).postsCreated) == SummaryOf(summaries, day)
    ensures forall d :: d != day ==> SummaryOf(r, d) == SummaryOf(summaries, d)
  {
    var s := SummaryOf(summaries, day);
    summaries[day := s.(postsCreated := s.postsCreated + 1)]
  }

  /** The first stored post with the slug. */
  function FindBySlug(posts: seq<Post>, slug: string): (r: Option<nat>)
    ensures r.Some? ==> r.value < |posts| && posts[r.value].slug == slug
    ensures r.Some? ==> forall j :: 0 <= j < r.value ==> posts[j].slug != slug
    ensures r.None? ==> forall j :: 0 <= j < |posts| ==> posts[j].slug != slug
  {
    if posts == [] then None
    else if posts[0].slug == slug then Some(0)
    else match FindBySlug(posts[1..], slug)
      case None => None
      case Some(i) => Some(i + 1)
  }

  /** What the site keeps: the stored posts, the in-memory throttle map and the daily
      summaries by day number. */
  datatype SiteState = SiteState(posts: seq<Post>, viewTimestamps: map<string, int>, summaries: map<int, DaySummary>)

  function Slugs(posts: seq<Post>): set<string>
  {
    set i | 0 <= i < |posts| :: posts[i].slug
  }

  /** No two stored posts share a slug. */
  predicate DistinctSlugs(posts: seq<Post>)
  {
    forall i, j :: 0 <= i < j < |posts| ==> posts[i].slug != posts[j].slug
  }

  datatype ViewOutcome = Throttled(found: Option<Post>) | NotFound | Viewed(post: Post)

  /** GET /:slug from `ip` at `now` on day `day`. The throttle key holds the raw path
      parameter; the `{ slug }` filters go through the schema's trim setter, so the post is
      looked up by the trimmed slug. */
  function ViewStep(s: SiteState, ip: string, slug: string, now: int, day: int): (SiteState, ViewOutcome)
  {
    ViewByKey(s, ViewKey(ip, slug), Trim(slug), now, day)
  }

  /** The view route once the throttle key and the slug the queries search for are known;
      the summary records the found post's own slug. */
  function ViewByKey(s: SiteState, key: string, query: string, now: int, day: int): (SiteState, ViewOutcome)
  {
    if key in s.viewTimestamps && now - s.viewTimestamps[key] < ThrottleWindow then
      var found := FindBySlug(s.posts, query);
      (s, Throttled(if found.Some? then Some(s.posts[found.value]) else None))
    else
      var stamped := s.(viewTimestamps := s.viewTimestamps[key := now]);
      match FindBySlug(s.posts, query)
      case None => (stamped, NotFound)
      case Some(i) =>
        var p := s.posts[i].(views := s.posts[i].views + 1);
        (stamped.(posts := s.posts[i := p], summaries := CountView(s.summaries, day, p.slug)), Viewed(p))
  }

  /** What one view does, for any key and query: a throttled view changes nothing;
      otherwise the key is stamped and at most the found post's view count changes. */
  lemma ViewByKeyEffect(s: SiteState, key: string, query: string, now: int, day: int)
    ensures var (t, r) := ViewByKey(s, key, query, now, day);
      (key in s.viewTimestamps && now - s.viewTimestamps[key] < ThrottleWindow ==> t == s && r.Throttled?) &&
      (!(key in s.viewTimestamps && now - s.viewTimestamps[key] < ThrottleWindow) ==>
        t.viewTimestamps == s.viewTimestamps[key := now] &&
        |t.posts| == |s.posts| &&
        (FindBySlug(s.posts, query).None? ==> r == NotFound && t.posts == s.posts && t.summaries == s.summaries) &&
        (FindBySlug(s.posts, query).Some? ==>
          var i := FindBySlug(s.posts, query).value;
          r == Viewed(t.posts[i]) && t.posts[i] == s.posts[i].(views := s.posts[i].views + 1) &&
          (forall j :: 0 <= j < |s.posts| && j != i ==> t.posts[j] == s.posts[j]) &&
          SummaryOf(t.summaries, day).views == SummaryOf(s.summaries, day).views + 1 &&
          SummaryOf(t.summaries, day).topPostSlug == Some(query)))
  {
  }

  /** The slug a create stores: the unique form of the normalised `slug || title`. */
  function NewSlug(posts: seq<Post>, input: PostInput): string
  {
    UniqueSlug(BaseSlug(SlugSource(input.slug, input.title)), Slugs(posts))
  }

  /** `Post.create` with a chosen slug, then the day's `postsCreated` upsert. */
  function Insert(s: SiteState, input: PostInput, slug: string, sanitize: string -> string, id: nat, now: int, day: int): (res: (SiteState, CreateOutcome))
    ensures !res.1.Created? ==> res == (s, CreateFailed)
    ensures res.1.Created? ==> (res.0.posts == s.posts + [res.1.post] && res.1.post.slug == slug)
  {
    match Document(input, slug, sanitize(input.content), id, now)
    case None => (s, CreateFailed)
    case Some(doc) =>
      var p := PreSave(doc);
      (s.(posts := s.posts + [p], summaries := CountCreated(s.summaries, day)), Created(p))
  }

  /** POST /admin/posts after authentication, with `sanitize` standing for `sanitizeHtml`. */
  function CreateStep(s: SiteState, input: PostInput, sanitize: string -> string, id: nat, now: int, day: int): (res: (SiteState, CreateOutcome))
  {
    if input.title == [] || input.content == [] then (s, CreateBadInput)
    else Insert(s, input, NewSlug(s.posts, input), sanitize, id, now, day)
  }

  // ---------------------------------------------------------------------------------
  // Properties of views and creation.

  /** A second view by the same visitor of the same post less than three seconds after the
      recorded one changes nothing. */
  lemma RepeatViewThrottled(s: SiteState, ip: string, slug: string, now: int, day: int)
    requires ViewKey(ip, slug) in s.viewTimestamps && now - s.viewTimestamps[ViewKey(ip, slug)] < ThrottleWindow
    ensures ViewStep(s, ip, slug, now, day).0 == s && ViewStep(s, ip, slug, now, day).1.Throttled?
  {
    ViewByKeyEffect(s, ViewKey(ip, slug), Trim(slug), now, day);
  }

  /** Any other view records `now` for the key (the raw slug), even when no post has the
      slug; when a post has the trimmed slug, exactly that post gains one view, and so does
      the day's summary, whose top post becomes that post's slug. */
  lemma ViewCounted(s: SiteState, ip: string, slug: string, now: int, day: int)
    requires !(ViewKey(ip, slug) in s.viewTimestamps && now - s.viewTimestamps[ViewKey(ip, slug)] < ThrottleWindow)
    ensures var (t, r) := ViewStep(s, ip, slug, now, day);
      t.viewTimestamps == s.viewTimestamps[ViewKey(ip, slug):= now] &&
      |t.posts| == |s.posts| &&
      (FindBySlug(s.posts, Trim(slug)).None? ==> r == NotFound && t.posts == s.posts && t.summaries == s.summaries) &&
      (FindBySlug(s.posts, Trim(slug)).Some? ==>
        var i := FindBySlug(s.posts, Trim(slug)).value;
        r == Viewed(t.posts[i]) && t.posts[i] == s.posts[i].(views := s.posts[i].views + 1) &&
        (forall j :: 0 <= j < |s.posts| && j != i ==> t.posts[j] == s.posts[j]) &&
        SummaryOf(t.summaries, day).views == SummaryOf(s.summaries, day).views + 1 &&
        SummaryOf(t.summaries, day).topPostSlug == Some(Trim(slug)))
  {
    ViewByKeyEffect(s, ViewKey(ip, slug), Trim(slug), now, day);
  }

  /** Leading whitespace in the path parameter or the query values makes no difference to
      which post is found or listed, because the filters go through the trim setter; only
      the throttle key keeps the raw text. */
  lemma LeadingSpaceIgnored(s: SiteState, c: char, slug: string, p: Post, category: string, tag: string)
    requires IsSpace(c)
    ensures FindBySlug(s.posts, Trim([c] + slug)) == FindBySlug(s.posts, Trim(slug))
    ensures category != "" ==> (Listed(p, [c] + category, tag) <==> Listed(p, category, tag))
    ensures tag != "" ==> (Listed(p, category, [c] + tag) <==> Listed(p, category, tag))
  {
    TrimLeadingSpace(c, slug);
    TrimLeadingSpace(c, category);
    TrimLeadingSpace(c, tag);
  }

  /** Right after a counted view the same visitor's next view within three seconds is
      throttled, and one three seconds or more later counts again. */
  lemma ThrottleWindowHolds(s: SiteState, ip: string, slug: string, now: int, day: int, later: int, day2: int)
    requires !(ViewKey(ip, slug) in s.viewTimestamps && now - s.viewTimestamps[ViewKey(ip, slug)] < ThrottleWindow)
    ensures var t := ViewStep(s, ip, slug, now, day).0;
      (later - now < ThrottleWindow <==> ViewStep(t, ip, slug, later, day2).1.Throttled?)
  {
    var t := ViewStep(s, ip, slug, now, day).0;
    ViewByKeyEffect(s, ViewKey(ip, slug), Trim(slug), now, day);
    assert t.viewTimestamps[ViewKey(ip, slug)] == now;
    ViewByKeyEffect(t, ViewKey(ip, slug), Trim(slug), later, day2);
  }

  lemma AppendFreshSlug(posts: seq<Post>, p: Post)
    requires DistinctSlugs(posts) && p.slug !in Slugs(posts)
    ensures DistinctSlugs(posts + [p])
  {
    var r := posts + [p];
    forall i, j | 0 <= i < j < |r| ensures r[i].slug != r[j].slug {
      if j == |posts| {
        assert r[i].slug in Slugs(posts);
      }
    }
  }

  /** Creating a post keeps slugs distinct: the new post's slug is one no stored post has. */
  lemma CreateKeepsSlugsDistinct(s: SiteState, input: PostInput, sanitize: string -> string, id: nat, now: int, day: int)
    requires DistinctSlugs(s.posts)
    ensures DistinctSlugs(CreateStep(s, input, sanitize, id, now, day).0.posts)
  {
    if input.title != [] && input.content != [] {
      var res := Insert(s, input, NewSlug(s.posts, input), sanitize, id, now, day);
      if res.1.Created? {
        AppendFreshSlug(s.posts, res.1.post);
      }
    }
  }

  /** A unique slug made from a base slug holds no whitespace, so the schema's trim setter
      leaves it as it is. */
  lemma SlugStaysTrimmed(base: string, taken: set<string>)
    requires forall c :: c in base ==> IsSlugChar(c)
    ensures Trim(UniqueSlug(base, taken)) == UniqueSlug(base, taken)
  {
    var r := UniqueSlug(base, taken);
    if base in taken {
      var k := FirstFreeCounter(base, taken, 1);
      var digits := NatToString(k);
      assert r == base + "-" + digits;
      assert r[|r| - 1] == digits[|digits| - 1];
      SlugCharNotSpace(r[|r| - 1]);
      if base == [] {
        assert r[0] == '-';
      } else {
        assert r[0] == base[0];
      }
      SlugCharNotSpace(r[0]);
    } else if r != [] {
      assert r[0] in base && r[|r| - 1] in base;
      SlugCharNotSpace(r[0]);
      SlugCharNotSpace(r[|r| - 1]);
    }
    TrimOfTrimmed(r);
  }

  lemma SameSlugsKeepDistinct(posts: seq<Post>, posts': seq<Post>)
    requires DistinctSlugs(posts) && |posts'| == |posts|
    requires forall j :: 0 <= j < |posts| ==> posts'[j].slug == posts[j].slug
    ensures DistinctSlugs(posts')
  {
  }

  /** A view changes no slug: at most one post's view count changes. */
  lemma ViewKeepsSlugs(s: SiteState, key: string, query: string, now: int, day: int)
    ensures var t := ViewByKey(s, key, query, now, day).0;
      |t.posts| == |s.posts| && forall j :: 0 <= j < |s.posts| ==> t.posts[j].slug == s.posts[j].slug
  {
    ViewByKeyEffect(s, key, query, now, day);
  }

  /** Viewing keeps slugs distinct. */
  lemma ViewKeepsSlugsDistinct(s: SiteState, ip: string, slug: string, now: int, day: int)
    requires DistinctSlugs(s.posts)
    ensures DistinctSlugs(ViewStep(s, ip, slug, now, day).0.posts)
  {
    var t := ViewByKey(s, ViewKey(ip, slug), Trim(slug), now, day).0;
    ViewKeepsSlugs(s, ViewKey(ip, slug), Trim(slug), now, day);
    SameSlugsKeepDistinct(s.posts, t.posts);
  }

  // ---------------------------------------------------------------------------------
  // The server state.

  class Site {
    var posts: seq<Post>
    var viewTimestamps: map<string, int>
    var summaries: map<int, DaySummary>

    function State(): SiteState
      reads this
    {
      SiteState(posts, viewTimestamps, summaries)
    }

    predicate Valid()
      reads this
    {
      DistinctSlugs(posts)
    }

    constructor ()
      ensures State() == SiteState([], map[], map[])
      ensures Valid()
    {
      posts := [];
      viewTimestamps := map[];
      summaries := map[];
    }

    /** The slug the create route picks for the request. */
    method SlugFor(input: PostInput) returns (slug: string)
      ensures slug == NewSlug(posts, input)
    {
      slug := ChooseSlug(BaseSlug(SlugSource(input.slug, input.title)), Slugs(posts));
    }

    /** POST /admin/posts. */
    method Create(input: PostInput, sanitize: string -> string, id: nat, now: int, day: int) returns (r: CreateOutcome)
      requires Valid()
      modifies this
      ensures Valid()
      ensures (State(), r) == CreateStep(old(State()), input, sanitize, id, now, day)
    {
      if input.title == [] || input.content == [] {
        return CreateBadInput;
      }
      var slug := SlugFor(input);
      r := Store(input, slug, sanitize, id, now, day);
    }

    /** `Post.create` with the chosen slug and the day's `postsCreated` upsert. */
    method Store(input: PostInput, slug: string, sanitize: string -> string, id: nat, now: int, day: int) returns (r: CreateOutcome)
      requires Valid() && slug !in Slugs(posts)
      modifies this
      ensures Valid()
      ensures (State(), r) == Insert(old(State()), input, slug, sanitize, id, now, day)
    {
      var doc := Document(input, slug, sanitize(input.content), id, now);
      if doc.None? {
        return CreateFailed;
      }
      var p := PreSave(doc.value);
      Append(p, day);
      r := Created(p);
    }

    /** Stores a post whose slug no stored post has and counts it in the day's summary. */
    method Append(p: Post, day: int)
      requires Valid() && p.slug !in Slugs(posts)
      modifies this
      ensures Valid()
      ensures State() == old(State()).(posts := old(posts) + [p], summaries := CountCreated(old(summaries), day))
    {
      AppendFreshSlug(posts, p);
      posts := posts + [p];
      summaries := CountCreated(summaries, day);
    }

    /** GET /:slug: the throttle key takes the raw path parameter, the queries the
        trimmed one. */
    method View(ip: string, slug: string, now: int, day: int) returns (r: ViewOutcome)
      requires Valid()
      modifies this
      ensures Valid()
      ensures (State(), r) == ViewStep(old(State()), ip, slug, now, day)
    {
      ViewKeepsSlugsDistinct(State(), ip, slug, now, day);
      r := ViewWith(ViewKey(ip, slug), Trim(slug), now, day);
    }

    /** The view route with the throttle key and the searched slug given. */
    method ViewWith(key: string, query: string, now: int, day: int) returns (r: ViewOutcome)
      modifies this
      ensures (State(), r) == ViewByKey(old(State()), key, query, now, day)
    {
      var found := FindBySlug(posts, query);
      if key in viewTimestamps && now - viewTimestamps[key] < ThrottleWindow {
        return Throttled(if found.Some? then Some(posts[found.value]) else None);
      }
      viewTimestamps := viewTimestamps[key := now];
      if found.None? {
        return NotFound;
      }
      var i := found.value;
      posts := posts[i := posts[i].(views := posts[i].views + 1)];
      summaries := CountView(summaries, day, posts[i].slug);
      r := Viewed(posts[i]);
    }
  }
}
