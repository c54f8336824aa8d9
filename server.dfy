/** The pieces of backend/server.js that decide something: the once-a-minute sweep that
    publishes scheduled posts, the CORS origin check, the general rate limiter's skip rule
    and the seeding of the default admin account. */
module Server {
  import opened Common
  import opened Text
  import opened Crypto
  import opened Users
  import opened PostModel
  import PostRoutes
  import AuthRoutes

  // ---------------------------------------------------------------------------------
  // Scheduled-post sweep.

  /** The query `{ status: "scheduled", scheduledFor: { $lte: now } }`; a missing date never
      compares as at most `now`. */
  predicate Due(p: Post, now: int)
  {
    p.status == Scheduled && p.scheduledFor.Some? && p.scheduledFor.value <= now
  }

  /** What the sweep leaves of one post: a due post is published, its date cleared, and
      `save()` runs the pre-save hook again; any other post is untouched. */
  function Publish(p: Post, now: int): Post
  {
    if Due(p, now) then PreSave(p.(status := Published, scheduledFor := None)) else p
  }

  /** The collection after one sweep at time `now`. */
  function Swept(posts: seq<Post>, now: int): (r: seq<Post>)
    ensures |r| == |posts|
  {
    seq(|posts|, i requires 0 <= i < |posts| => Publish(posts[i], now))
  }

  /** One run of the interval callback over the collection, updating the due posts in place. */
  method Sweep(a: array<Post>, now: int)
    modifies a
    ensures a[..] == Swept(old(a[..]), now)
  {
    for i := 0 to a.Length
      invariant a[..i] == Swept(old(a[..]), now)[..i]
      invariant a[i..] == old(a[..])[i..]
    {
      var post := a[i];
      if post.status == Scheduled && post.scheduledFor.Some? && post.scheduledFor.value <= now {
        post := post.(status := Published);
        post := post.(scheduledFor := None);
        a[i] := PreSave(post);
      }
    }
  }

  /** The sweep changes exactly the due posts: each becomes published with no date and
      keeps every other field; its excerpt is generated by the pre-save hook exactly when it
      was empty and there is content; every other post is unchanged. */
  lemma SweepChangesOnlyDue(posts: seq<Post>, now: int, i: int)
    requires 0 <= i < |posts|
    ensures var p, q := posts[i], Swept(posts, now)[i];
      (Due(p, now) ==> (q.status == Published && q.scheduledFor == None &&
        q.(status := p.status, scheduledFor := p.scheduledFor, excerpt := p.excerpt) == p &&
        (p.excerpt != "" || p.content == "" ==> q.excerpt == p.excerpt) &&
        (p.excerpt == "" && p.content != "" ==> q.excerpt == GeneratedExcerpt(p.content)))) &&
      (!Due(p, now) ==> q == p)
  {
  }

  /** After a sweep no post is due any more, so a second sweep at the same time changes
      nothing. */
  lemma SweepIdempotent(posts: seq<Post>, now: int)
    ensures forall i :: 0 <= i < |posts| ==> !Due(Swept(posts, now)[i], now)
    ensures Swept(Swept(posts, now), now) == Swept(posts, now)
  {
    var once := Swept(posts, now);
    assert forall i :: 0 <= i < |posts| ==> !Due(once[i], now);
    assert forall i :: 0 <= i < |posts| ==> Swept(once, now)[i] == once[i];
  }

  /** A later sweep publishes whatever an earlier one did and possibly more: posts due at
      `now` stay published by a sweep at any later time. */
  lemma DueStaysDue(p: Post, now: int, later: int)
    requires Due(p, now) && now <= later
    ensures Due(p, later)
    ensures Publish(p, later) == Publish(p, now)
  {
  }

  /** The sweep keeps every slug, so the stored slugs stay distinct. */
  lemma SweepKeepsSlugs(posts: seq<Post>, now: int)
    ensures forall i :: 0 <= i < |posts| ==> Swept(posts, now)[i].slug == posts[i].slug
    ensures PostRoutes.DistinctSlugs(posts) ==> PostRoutes.DistinctSlugs(Swept(posts, now))
  {
    assert forall i :: 0 <= i < |posts| ==> Swept(posts, now)[i].slug == posts[i].slug;
  }

  // ---------------------------------------------------------------------------------
  // CORS.

  const AllowedOrigins: seq<string> := [
    "http://localhost:5173",
    "https://currentnews365.com",
    "https://www.currentnews365.com",
    "https://current-news365.vercel.app",
    "https://current-news365-sadhujaydeeps-projects.vercel.app"
  ]

  /** The `origin` callback: a request without an Origin header (or with an empty one) is
      let through, any other only when its origin is listed verbatim. */
  predicate OriginAllowed(origin: Option<string>)
  {
    match origin
    case None => true
    case Some(o) => o == "" || o in AllowedOrigins
  }

  /** The check is exact string membership, with no normalisation: a listed origin is
      allowed, a different string, even one naming the same site, is refused. */
  lemma OriginAllowedIff(o: string)
    requires o != ""
    ensures OriginAllowed(Some(o)) <==> exists i :: 0 <= i < |AllowedOrigins| && AllowedOrigins[i] == o
    ensures OriginAllowed(Some("https://currentnews365.com"))
    ensures !OriginAllowed(Some("https://currentnews365.com/"))
    ensures !OriginAllowed(Some("HTTPS://currentnews365.com"))
  {
    assert AllowedOrigins[1] == "https://currentnews365.com";
    assert "https://currentnews365.com/" != "https://currentnews365.com";
    assert forall i :: 0 <= i < |AllowedOrigins| ==> |AllowedOrigins[i]| != |"https://currentnews365.com/"| || AllowedOrigins[i][25] != "https://currentnews365.com/"[25];
    assert AllowedOrigins[0][0] == AllowedOrigins[1][0] == AllowedOrigins[2][0] == 'h';
    assert AllowedOrigins[3][0] == AllowedOrigins[4][0] == 'h';
  }

  // ---------------------------------------------------------------------------------
  // Rate-limit skip.

  const RefreshPath: string := "/api/auth/refresh"

  /** The `skip` option of the general limiter: `req.path || req.originalUrl || ''`, with an
      absent value as "", then equality with or a prefix match on the refresh path. */
  predicate RateLimitSkipped(path: string, originalUrl: string)
  {
    var p := if path != "" then path else originalUrl;
    p == RefreshPath || StartsWith(p, RefreshPath)
  }

  /** The equality test adds nothing to the prefix test: exactly the requests whose path
      starts with the refresh path skip the limiter, including longer paths such as
      "/api/auth/refreshed" that are not the refresh route. */
  lemma RateLimitSkippedIff(path: string, originalUrl: string)
    ensures RateLimitSkipped(path, originalUrl) <==>
      StartsWith(if path != "" then path else originalUrl, RefreshPath)
    ensures RateLimitSkipped(RefreshPath, "")
    ensures RateLimitSkipped("/api/auth/refreshed", "")
    ensures !RateLimitSkipped("/api/auth/login", RefreshPath)
  {
    assert StartsWith(RefreshPath, RefreshPath);
    var longer := "/api/auth/refreshed";
    assert longer[..|RefreshPath|] == RefreshPath;
    var login := "/api/auth/login";
    assert login[10] != RefreshPath[10];
  }

  // ---------------------------------------------------------------------------------
  // Default admin.

  const DefaultAdminName: string := "Default Admin"

  /** `createDefaultAdmin()` with the two environment values as strings ("" when unset) and
      bcrypt's random salt as a parameter: the account is created only when both values are
      set, no account has the email yet, and the email is not blank once trimmed (a blank
      one fails `User.create`'s required check, which the surrounding catch swallows). */
  method SeedDefaultAdmin(c: Suite, users: seq<Account>, email: string, password: string, salt: string, id: nat)
    returns (r: seq<Account>, created: bool)
    ensures created <==> email != "" && password != "" && AuthRoutes.FindByEmail(users, email).None? &&
                         NormalizeEmail(email) != ""
    ensures !created ==> r == users
    ensures created ==> |r| == |users| + 1 && r[..|users|] == users && fresh(r[|users|])
    ensures created ==> var a := r[|users|];
      a.name == DefaultAdminName && a.email == NormalizeEmail(email) && a.role == Admin &&
      a.State() == InitialState(BcryptHash(c, password, salt)) && a.VerifyPassword(c, password) && a.Valid()
  {
    if email == "" || password == "" {
      return users, false;
    }
    var existing := AuthRoutes.FindByEmail(users, email);
    if existing.Some? {
      return users, false;
    }
    if NormalizeEmail(email) == "" {
      // The trim setter leaves "", the schema's required validator refuses it, and the
      // error is caught and logged.
      return users, false;
    }
    var hash := BcryptHash(c, password, salt);
    BcryptRoundTrip(c, password, salt);
    var a := new Account(id, DefaultAdminName, email, hash);
    r := users + [a];
    created := true;
  }

  /** Once an account with the email exists, seeding again finds it and creates nothing. */
  lemma SeededAdminFound(users: seq<Account>, a: Account, email: string)
    requires a.email == NormalizeEmail(email)
    ensures AuthRoutes.FindByEmail(users + [a], email).Some?
  {
    if users != [] {
      assert (users + [a])[1..] == users[1..] + [a];
      SeededAdminFound(users[1..], a, email);
    } else {
      assert (users + [a])[0] == a;
    }
  }
}
