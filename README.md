# CurrentNews365 — a Dafny model of its core logic

CurrentNews365 is a news site. It has an Express/Mongoose backend and a React admin and
public front end. This project models the parts of it that decide something:

- **Admin authentication** (`backend/routes/auth.js`, `backend/models/User.js`). The
  account record keeps a failed-login counter, a lock time, a hashed password-reset token
  with an expiry, and a list of refresh-token sessions. Login, refresh, logout,
  request-password-reset and reset-password change it. Each handler is an imperative
  method over the user collection (`AuthRoutes`). Its effect on the matched account is
  specified by a pure step function on `AccountState`, and the lemmas of
  `AuthProperties` are proved about those step functions. The account itself is a class,
  `Users.Account`, whose fields the handlers assign.
- **Posts** (`backend/routes/post.js`, `backend/models/Post.js`):
  - slug normalisation and the loop that makes a slug unique;
  - the defaults of a created post and the schema's trim setters;
  - the pre-save excerpt hook;
  - the public list with its filters and paging;
  - the per-visitor view throttle and the daily summary counters.

  The database and the module-level throttle map are the fields of a `PostRoutes.Site`.
- **Server rules** (`backend/server.js`): the scheduled-post sweep (in place on an
  array), the CORS origin check, the rate limiter's skip rule, and the default-admin
  seeding.
- **Feeds** (`backend/routes/seo.js`): sitemap.xml and rss.xml. Each is specified as a
  list of entries plus their serialisation. The string-appending loops are proved to
  build exactly that text.
- **Dashboard data** (`backend/routes/auth.js`): the seven-day view series of `/summary`
  and the notification messages of `/notifications`.
- **React pages**:
  - `Editor.jsx`: `slugify`, the title-to-slug sync, and the comma-list fields.
  - `MainSite.jsx`: category counting with a `Map`, search and category filtering,
    pagination, and the featured-post fallbacks.
  - `Posts.jsx`: the search effect and delete.
  - `Dashboard.jsx`: the top-five ranking, the recent posts, and the fallback week.

  A post as the pages receive it is a `Client.Item`, in which any field may be missing.

Foreign code and the environment become parameters:

- **Cryptography.** bcrypt, SHA-256 and the JWT signature are arbitrary functions in a
  `Crypto.Suite`, so every property holds for every choice of them. `bcrypt.hash` takes
  its random salt as a parameter.
- **Clocks and randomness.** `Date.now()` is `now` in milliseconds. The random bytes of
  token ids and reset tokens are the parameters `tokenId`, `newTokenId` and `raw`. The
  handlers require a fresh token id to be absent from the account's sessions.
- **Date formatting.** `toISOString`, `toUTCString` and `toLocaleDateString` are given as
  functions or strings. A day is a day number counted from 1 January 1970.
- **`sanitizeHtml`** is a function parameter.
- **Database reads.** A query is a search of an in-memory sequence, given in the sort
  order the query asks for. Query filters go through the schema's setters, as Mongoose
  casts them: `User.findOne({ email })` compares against the email after the lowercase
  and trim setters, and the post queries by `slug`, `category` and `tags` compare the
  trimmed request value.

Where the code and the intended design differ, the model follows the code:

- Logout overwrites `revokedAt` even on an already revoked session
  (`AuthProperties.LogoutOverwritesRevokedAt`).
- Reset-password empties the session list; it does not mark the sessions revoked.
- The failure counter is not cleared when a lock runs out, so the next wrong password
  locks the account again at once (`AuthProperties.ExpiredLockRelocksOnNextFailure`).
- A reset neither clears the counter nor lifts a lock (`AuthProperties.ResetKeepsLock`).
- Reset-password accepts a password of any length: its `isLength({ min: 6 })` validator
  is declared but never consulted (see Findings). The handler and the reset lemmas follow
  the code; `AuthRoutes.ResetStep` is the corrected step, with the validator enforced.
- request-password-reset returns the raw token in its response body.
- The day's "top post" slug is simply the last post viewed (`PostRoutes.CountView`).
- The admin search does not trim its query (`AdminPosts.SearchKeepsSpaces`).
- The rate-limit skip rule also matches longer paths such as `/api/auth/refreshed`
  (`Server.RateLimitSkippedIff`).

## Model

| member | source | states |
|---|---|---|
| `Crypto.BcryptRoundTrip` | backend/models/User.js:27-34 | A password always matches the hash made from it, whatever the salt. |
| `Crypto.SignThenVerify` | backend/routes/auth.js:27-34 | A signed token verifies with its own payload before its lifetime ends and is rejected from then on. |
| `Crypto.VerifiedClaimsAreSigned` | backend/routes/auth.js:104 | A payload that verifies is the one the signature was computed over. |
| `Crypto.TokenIdOf` | backend/routes/auth.js:106-110 | Only a refresh-token payload carries a token id. |
| `Users.InitialState` | backend/models/User.js:13-24 | A new account has no failures, no lock, no sessions and no reset token, and satisfies the account invariant. |
| `Users.Account.constructor` | backend/models/User.js:13-24 | A created account stores the lower-cased, trimmed email and the admin role, and its state is the defaults. |
| `Users.Account.SetPassword` | backend/models/User.js:27-29 | Only the password hash changes, and the new password then verifies. |
| `Users.Account.CreatePasswordResetToken` | backend/models/User.js:37-42 | Returns the raw token and stores only its SHA-256 with an expiry one hour after `now`; nothing else changes. |
| `Users.WithResetTokenKeepsRest` | backend/models/User.js:39-40 | Storing a reset token keeps the invariant and changes only the two reset fields. |
| `AuthRoutes.FirstMatch` | backend/routes/auth.js:108-110 | The index of the first session with the token id (and, for refresh, not revoked), or none when no session matches. |
| `AuthRoutes.FindSession` | backend/routes/auth.js:108-110 | The search loop returns exactly that first matching index. |
| `AuthRoutes.FindByEmail` | backend/routes/auth.js:47 | The first account with the normalised email, or none exactly when no account has it. |
| `AuthRoutes.FindById` | backend/routes/auth.js:105 | The first account with the id, or none exactly when no account has it. |
| `AuthRoutes.RevokeKeepsTokenIds` | backend/routes/auth.js:115 | Revoking a session keeps the list's length and every token id. |
| `AuthRoutes.AppendFreshKeepsDistinct` | backend/routes/auth.js:69-73 | Pushing a session with a new token id keeps the ids distinct and adds exactly that id. |
| `AuthRoutes.LoginStepKeepsInvariant` | backend/routes/auth.js:50-74 | Login keeps token ids distinct and the reset fields paired. |
| `AuthRoutes.RefreshStepKeepsInvariant` | backend/routes/auth.js:106-121 | Refresh keeps the invariant. |
| `AuthRoutes.LogoutStepKeepsInvariant` | backend/routes/auth.js:143-148 | Logout keeps the invariant. |
| `AuthRoutes.LoginAccount` | backend/routes/auth.js:50-74 | For a found account, the lock check, the password check with its counter, and the session push move the account exactly as `LoginStep` says, keeping the invariant. |
| `AuthRoutes.Login` | backend/routes/auth.js:37-97 | A short password gets 400 and an unknown email "Invalid credentials", both changing nothing. Otherwise the matched account moves exactly as `LoginStep` says and no other account changes. |
| `AuthRoutes.Refresh` | backend/routes/auth.js:100-134 | No cookie gives "Missing refresh token" and a token that fails verification gives "Expired or invalid refresh token", both changing nothing. Otherwise the named account moves as `RefreshStep` says, or the answer is "Invalid refresh token" with nothing changed. |
| `AuthRoutes.Logout` | backend/routes/auth.js:137-154 | Always answers 200 "Logged out". Only the named account changes, as `LogoutStep` says; a missing or bad token changes nothing. |
| `AuthRoutes.RequestPasswordReset` | backend/routes/auth.js:157-164 | An unknown email changes nothing. Otherwise the matched account gets the reset token, the raw token is returned, and no other account changes. |
| `AuthRoutes.ResetPassword` | backend/routes/auth.js:167-197 | An unknown email gets "Invalid token" and changes nothing. Otherwise the matched account moves as `ResetStepAsWritten` says, for every password (the declared length validator is never consulted), and no other account changes. |
| `AuthProperties.LockedRefusesEveryPassword` | backend/routes/auth.js:50-52 | While the lock is in force every password, even the right one, gets 403, and the account is unchanged. |
| `AuthProperties.WrongPasswordCounts` | backend/routes/auth.js:54-62 | A wrong password adds one failure. From the fifth failure on it locks the account until `now` + 10 minutes. Nothing else changes. |
| `AuthProperties.RightPasswordLogsIn` | backend/routes/auth.js:64-76 | The right password clears the counter and the lock and appends exactly one live session with the fresh token id. Existing sessions are kept, and both returned tokens verify until they expire. |
| `AuthProperties.FailuresAccumulate` | backend/routes/auth.js:55-60 | Fewer than five failures from a clear account only raise the counter. |
| `AuthProperties.FiveFailuresLockOut` | backend/routes/auth.js:50-61 | Five wrong passwords lock the account for ten minutes after the fifth, and within that window the right password is refused. |
| `AuthProperties.ExpiredLockRelocksOnNextFailure` | backend/routes/auth.js:50-58 | After a lock expires, a single further wrong password locks again, because the counter was never cleared. |
| `AuthProperties.LockExpires` | backend/routes/auth.js:50-65 | Once the lock time has passed, the right password logs in and clears the lock. |
| `AuthProperties.RefreshSucceedsIff` | backend/routes/auth.js:106-111 | Refresh succeeds exactly when the token id names a live session; otherwise it answers 401 and changes nothing. |
| `AuthProperties.RevokeActiveIds` | backend/routes/auth.js:115 | Revoking one session removes exactly its id from the live ids. |
| `AuthProperties.RefreshRotates` | backend/routes/auth.js:113-121 | A successful refresh removes exactly the presented id from the live ids and adds exactly the new one. |
| `AuthProperties.RefreshTokenSingleUse` | backend/routes/auth.js:106-121 | Presenting the same refresh token again after a successful refresh fails. |
| `AuthProperties.LoginThenRefresh` | backend/routes/auth.js:64-121 | The refresh token a login issues verifies and is accepted by refresh until it expires. |
| `AuthProperties.LogoutRevokes` | backend/routes/auth.js:143-148 | After logout the token id is no longer live, and nothing else in the account changes. |
| `AuthProperties.LogoutIdempotent` | backend/routes/auth.js:144-147 | Logging out twice leaves the same live sessions as logging out once. |
| `AuthProperties.LogoutOverwritesRevokedAt` | backend/routes/auth.js:144-147 | Logout sets `revokedAt` to `now` even on a session that was already revoked. |
| `AuthProperties.LogoutThenRefreshFails` | backend/routes/auth.js:106-147 | A logged-out refresh token no longer refreshes. |
| `AuthProperties.ResetStepKeepsInvariant` | backend/routes/auth.js:177-186 | A reset, as written and in its corrected form, keeps the account invariant, for every password. |
| `AuthProperties.ResetRoundTrip` | backend/models/User.js:37-42 | A reset with the raw token, within the hour, succeeds with any password. The new password verifies, the reset fields are cleared and the session list is empty. |
| `AuthProperties.ResetRefusedIff` | backend/routes/auth.js:177-180 | For every password, a reset is refused exactly when the token's hash differs or the expiry has passed; a refused reset changes nothing, and otherwise it succeeds. |
| `AuthProperties.ResetTokenSingleUse` | backend/routes/auth.js:182-185 | After a successful reset the same token is refused, with any password, and the refusal changes nothing. |
| `AuthProperties.LatestResetTokenWins` | backend/models/User.js:39-40 | A second reset request overwrites the first one's hash and expiry, and the first token is then refused with any password. |
| `AuthProperties.ResetEndsAllSessions` | backend/routes/auth.js:185 | A successful reset, with any password, empties the session list, so no refresh token works afterwards. |
| `AuthProperties.ResetKeepsLock` | backend/routes/auth.js:182-186 | A reset leaves the failure counter and the lock as they were and changes nothing but the password hash, the reset fields and the sessions. |
| `AuthProperties.ResetAsWrittenAcceptsShortPassword` | backend/routes/auth.js:167-186 | As written, a good token resets the password to the empty string. |
| `AuthProperties.ResetRejectsShortPassword` | backend/routes/auth.js:171 | With the length validator enforced, a password under six characters is refused with the account unchanged, and any other password behaves as written. |
| `AuthSummary.LastSevenDays` | backend/routes/auth.js:245-256 | Seven points, oldest first, for the six days before today and today. Each has its weekday and the day's stored views, or 0 when there is no summary. |
| `AuthSummary.BuildLastSevenDays` | backend/routes/auth.js:246-256 | The countdown loop builds exactly that series. |
| `AuthSummary.LastSevenDaysLabels` | backend/routes/auth.js:253 | The last label is today's weekday and the seven labels are all different. |
| `AuthSummary.WeekdaysDiffer` | backend/routes/auth.js:253 | Two days less than a week apart have different weekday names. |
| `AuthSummary.CountedViewShows` | backend/routes/post.js:151-156 | A counted view raises today's point by one and leaves the six earlier points alone. |
| `AuthSummary.Spaced` | backend/routes/auth.js:307 | Every underscore becomes a space and every other character stays. |
| `AuthSummary.Notifications` | backend/routes/auth.js:278-325 | At most 15 notifications, one per audit record in order. |
| `AuthSummary.NotificationKind` | backend/routes/auth.js:289-301 | A notification is a success exactly for a creation and an alert exactly for a deletion. |
| `AuthSummary.NotificationTitle` | backend/routes/auth.js:311-314 | " (title)" is appended exactly when the target post exists with a title, after the action's message. |
| `AuthSummary.LoginNotification` | backend/routes/auth.js:302-305 | A login message starts with the user's email, or "Admin" when there is none. |
| `AuthSummary.OtherActionSpaced` | backend/routes/auth.js:306-307 | An unlisted action is shown as info, as its own name with no underscores. |
| `PostModel.ParseStatus` | backend/models/Post.js:21-25 | A status string is accepted exactly when it names one of draft, scheduled or published. |
| `PostModel.ParseName` | backend/models/Post.js:21-25 | Every status parses back from its name. |
| `PostModel.SkipTag` | backend/models/Post.js:46 | What is left after a tag is a proper suffix following its '>', or nothing. |
| `PostModel.StripTags` | backend/models/Post.js:46 | The stripped text is no longer than the input and contains no '<'. |
| `PostModel.StripTagsPlainText` | backend/models/Post.js:46 | Text without '<' is left unchanged. |
| `PostModel.StripTagsIdempotent` | backend/models/Post.js:46 | Stripping twice is stripping once. |
| `PostModel.GeneratedExcerpt` | backend/models/Post.js:46-47 | A generated excerpt has at most 183 characters. |
| `PostModel.GeneratedExcerptShape` | backend/models/Post.js:46-47 | A stripped text over 180 characters gives its first 180 characters, trimmed at the front, plus "..."; a shorter one gives the trimmed text. |
| `PostModel.PreSave` | backend/models/Post.js:44-50 | The hook changes only the excerpt. A non-empty excerpt is kept, an empty one with content is generated, a post without content is left alone, and any change means the excerpt was empty and there was content. |
| `PostModel.PreSaveIdempotent` | backend/models/Post.js:44-50 | Saving again changes nothing more. |
| `PostRoutes.BaseSlug` | backend/routes/post.js:41 | The base slug holds only characters from [a-z0-9-]. |
| `PostRoutes.BaseSlugFixpoint` | backend/routes/post.js:41 | A string of slug characters is its own base slug. |
| `PostRoutes.BaseSlugIdempotent` | backend/routes/post.js:41 | Normalising twice is normalising once. |
| `PostRoutes.Candidate` | backend/routes/post.js:44 | An alternative slug is the base, a '-', then more text. |
| `PostRoutes.CandidateInjective` | backend/routes/post.js:44 | Different counters give different alternatives. |
| `PostRoutes.FirstFreeCounter` | backend/routes/post.js:43-44 | The smallest counter from `k` on whose alternative is free. |
| `PostRoutes.UniqueSlug` | backend/routes/post.js:42-44 | The chosen slug is not taken. It is the base when that is free, and otherwise base-k for the smallest k >= 1 that is free. |
| `PostRoutes.ChooseSlug` | backend/routes/post.js:42-44 | The `while` loop picks exactly that slug. |
| `PostRoutes.TrimOr` | backend/models/Post.js:14-15 | The trim setter applied to `x || fallback`. |
| `PostRoutes.Document` | backend/routes/post.js:55-71 | Creation fails schema validation exactly for an unknown status or an empty title or content. A stored post has the chosen slug and zero views. |
| `PostRoutes.CreateDefaults` | backend/routes/post.js:61-69 | Absent fields take their defaults: category "finance-news", sub-category "stocks", status draft, no schedule, zero views, empty source and lists. |
| `PostRoutes.Matching` | backend/routes/post.js:121-124 | Every listed post is stored, published, and in the category and tag asked for, each compared after trimming (the `if (category)` / `if (tag)` tests use the raw value). |
| `PostRoutes.MatchingIff` | backend/routes/post.js:121-124 | A post is listed exactly when it is stored and matches. |
| `PostRoutes.PublicList` | backend/routes/post.js:119-125 | Every post on a page is a stored, matching post. |
| `PostRoutes.PageContents` | backend/routes/post.js:119-125 | For page ≥ 1 and limit ≥ 1 the page holds exactly the matching posts from offset (page-1)·limit, in order: min(limit, remaining) of them, none past the end. |
| `PostRoutes.PagesTile` | backend/routes/post.js:124 | A page holds at most `limit` posts, and two consecutive pages together are the matching posts from the first page's offset, with no gap or overlap. |
| `PostRoutes.ViewKeyInjective` | backend/routes/post.js:134 | Keys of different visitors or posts never collide when addresses hold no '_'. |
| `PostRoutes.CountView` | backend/routes/post.js:151-156 | The day's views go up by one and its top slug becomes the viewed one; other days are unchanged. |
| `PostRoutes.CountCreated` | backend/routes/post.js:73 | The day's created count goes up by one and nothing else changes. |
| `PostRoutes.FindBySlug` | backend/routes/post.js:144-148 | The first post with the slug, or none when no post has it. |
| `PostRoutes.Insert` | backend/routes/post.js:55-73 | A failed create changes nothing. A successful one appends the post with the chosen slug. |
| `PostRoutes.RepeatViewThrottled` | backend/routes/post.js:138-140 | A repeat view within three seconds changes nothing. |
| `PostRoutes.ViewCounted` | backend/routes/post.js:142-156 | Any other view records `now` for the raw key, even for an unknown slug (404). When a post has the trimmed slug, exactly that post and the day's summary gain one view, and the summary's top post is that post's slug. |
| `PostRoutes.ViewByKeyEffect` | backend/routes/post.js:138-156 | For a given throttle key and searched slug: a throttled view changes nothing; otherwise the key is stamped, and only the found post (if any) and the day's summary change, each by one view. |
| `PostRoutes.LeadingSpaceIgnored` | backend/routes/post.js:122-123 | Leading whitespace in the path slug, a non-empty category or a non-empty tag changes neither the post found nor the posts listed. |
| `PostRoutes.ThrottleWindowHolds` | backend/routes/post.js:138-142 | After a counted view, the same visitor's next view is throttled exactly when it comes within three seconds. |
| `PostRoutes.AppendFreshSlug` | backend/routes/post.js:44 | Appending a post whose slug is free keeps slugs distinct. |
| `PostRoutes.CreateKeepsSlugsDistinct` | backend/routes/post.js:41-71 | Creating a post keeps every stored slug distinct. |
| `PostRoutes.SlugStaysTrimmed` | backend/models/Post.js:7 | A generated slug has no edge whitespace, so the schema's trim setter keeps it. |
| `PostRoutes.ViewKeepsSlugs` | backend/routes/post.js:144-148 | For any throttle key and searched slug, a view keeps the number of posts and every slug. |
| `PostRoutes.ViewKeepsSlugsDistinct` | backend/routes/post.js:144-148 | A view keeps slugs distinct. |
| `PostRoutes.Site.constructor` | backend/routes/post.js:130 | The site starts with no posts, an empty throttle map and no summaries. |
| `PostRoutes.Site.SlugFor` | backend/routes/post.js:41-44 | The slug the create route picks for the request. |
| `PostRoutes.Site.Create` | backend/routes/post.js:31-82 | The site moves exactly as `CreateStep` says and slugs stay distinct. |
| `PostRoutes.Site.Store` | backend/routes/post.js:55-73 | Storing moves the site as `Insert` says and keeps slugs distinct. |
| `PostRoutes.Site.Append` | backend/routes/post.js:55-73 | A post with a fresh slug is appended, the day's `postsCreated` goes up by one, nothing else changes, and slugs stay distinct. |
| `PostRoutes.Site.View` | backend/routes/post.js:132-159 | The site moves exactly as `ViewStep` says: the throttle key uses the raw path slug, the post is looked up by the trimmed slug; slugs stay distinct. |
| `PostRoutes.Site.ViewWith` | backend/routes/post.js:138-156 | For a given throttle key and searched slug, the site and the outcome are exactly `ViewByKey`'s. |
| `Server.Swept` | backend/server.js:300-316 | The sweep keeps the collection's length. |
| `Server.Sweep` | backend/server.js:303-310 | The in-place loop leaves the array equal to the swept collection. |
| `Server.SweepChangesOnlyDue` | backend/server.js:303-310 | A due post becomes published with no date and keeps every other field; its excerpt is kept when set or when there is no content, and is `GeneratedExcerpt(content)` when empty with content (the save runs the pre-save hook). Any other post is unchanged. |
| `Server.SweepIdempotent` | backend/server.js:303-310 | After a sweep nothing is due, so a second sweep changes nothing. |
| `Server.DueStaysDue` | backend/server.js:303-306 | A post due now is still due later, and the later sweep publishes it the same way. |
| `Server.SweepKeepsSlugs` | backend/server.js:307-310 | The sweep keeps every slug, so slugs stay distinct. |
| `Server.OriginAllowedIff` | backend/server.js:85-94 | A non-empty origin is allowed exactly when it is listed verbatim; a trailing slash or different case is refused. |
| `Server.RateLimitSkippedIff` | backend/server.js:164-167 | Exactly the paths starting with "/api/auth/refresh" skip the limiter, "/api/auth/refreshed" included. |
| `Server.SeedDefaultAdmin` | backend/server.js:40-64 | An admin is created exactly when both values are set, no account has the email, and the email is not blank after trimming (a blank one fails the schema's required check inside the `try`). It then has the default state and its password verifies. |
| `Server.SeededAdminFound` | backend/server.js:49-53 | Once seeded, the account is found by its email, so seeding again creates nothing. |
| `Seo.PublishedPosts` | backend/routes/seo.js:12 | Only stored, published posts appear. |
| `Seo.StaticEntries` | backend/routes/seo.js:31-47 | One static entry per page, in order. |
| `Seo.ArticleEntries` | backend/routes/seo.js:50-59 | One article entry per post, in order, with its slug and date. |
| `Seo.RenderConcat` | backend/routes/seo.js:39-59 | Rendering two lists is rendering the first, then the second. |
| `Seo.AppendEntries` | backend/routes/seo.js:39-59 | The `forEach` appending loop builds exactly the rendered text. |
| `Seo.BuildSitemap` | backend/routes/seo.js:10-69 | The handler builds exactly the specified sitemap text. |
| `Seo.SitemapEntriesShape` | backend/routes/seo.js:22-59 | There are 1 + 5 + n entries: the homepage at "/", the five static pages in order, then the published posts in query order, each at the site address, '/' and its slug. |
| `Seo.SitemapListsPublished` | backend/routes/seo.js:50-59 | Every published post has its entry. |
| `Seo.EntryHasLoc` | backend/routes/seo.js:24-53 | Every `<url>` block carries its address in a `<loc>`. |
| `Seo.SitemapFraming` | backend/routes/seo.js:18-61 | The sitemap starts with the XML declaration and `<urlset>` and ends with `</urlset>`. |
| `Seo.RssPosts` | backend/routes/seo.js:78-80 | At most 20 posts, and they are the first published ones in order. |
| `Seo.BuildRss` | backend/routes/seo.js:76-118 | The handler builds exactly the specified RSS text. |
| `Seo.RssItemsShape` | backend/routes/seo.js:95-104 | Each item comes from a published post, its link and guid are both the post's address, and an unset excerpt gives an empty description. |
| `Seo.RssTakesFirstTwenty` | backend/routes/seo.js:78-80 | The feed holds all published posts when there are at most 20, and exactly 20 otherwise. |
| `Seo.EmptyExcerptItem` | backend/routes/seo.js:102 | An item without an excerpt has an empty CDATA description. |
| `Client.FindFirst` | frontend/src/pages/MainSite.jsx:39-45 | The first index satisfying the test, or none when none does. |
| `Editor.CollapseHyphens` | frontend/src/pages/Editor.jsx:15 | Hyphen runs become single hyphens: no longer than the input, same first character, only input characters, no two hyphens in a row. |
| `Editor.SlugifyShape` | frontend/src/pages/Editor.jsx:9-15 | A slug holds only [a-z0-9-] and never two hyphens in a row. |
| `Editor.CollapseHyphensNoRun` | frontend/src/pages/Editor.jsx:15 | Text without a hyphen run is left alone. |
| `Editor.SlugTextFixpoint` | frontend/src/pages/Editor.jsx:9-15 | Slug text is its own slug. |
| `Editor.SlugifyIdempotent` | frontend/src/pages/Editor.jsx:9-15 | `slugify(slugify(s)) == slugify(s)`. |
| `Editor.ServerKeepsEditorSlug` | backend/routes/post.js:41 | The server's normalisation keeps any slug the editor produced. |
| `Editor.EditTitle` | frontend/src/pages/Editor.jsx:202-207 | Editing the title sets the slug to its slug, a string of slug characters, and changes nothing else; the slug then saved is the title's slug, whether it came from this sync or from the empty-slug fallback of `handleSave` (Editor.jsx:135). |
| `Editor.SplitList` | frontend/src/pages/Editor.jsx:124-133 | Empty text gives [], and any other text gives comma-free, trimmed pieces. |
| `Editor.SavePayload` | frontend/src/pages/Editor.jsx:122-135 | Each list field is split and trimmed, and an empty slug is replaced by the title's slug. |
| `Editor.SplitJoinRoundTrip` | frontend/src/pages/Editor.jsx:70-73 | Joining with ", " and splitting on save returns the list, for pieces without commas or edge whitespace; the single list [""] comes back as []. |
| `Editor.LoadSaveKeepsLists` | frontend/src/pages/Editor.jsx:70-133 | Loading a post and saving it at once sends its tags and keywords back unchanged. |
| `MainSite.CategoryNames` | frontend/src/pages/MainSite.jsx:59 | Each post's category, or "Uncategorized", in order. |
| `MainSite.FirstOccurrences` | frontend/src/pages/MainSite.jsx:57-62 | The map's keys are exactly the categories that occur. |
| `MainSite.CountsOf` | frontend/src/pages/MainSite.jsx:62 | One entry per key with the number of posts in it. |
| `MainSite.CountCategories` | frontend/src/pages/MainSite.jsx:57-61 | The `forEach` leaves the map's keys in first-occurrence order, each holding its number of posts. |
| `MainSite.TallyStep` | frontend/src/pages/MainSite.jsx:60 | One `map.set` keeps that tally. |
| `MainSite.MapEntries` | frontend/src/pages/MainSite.jsx:62 | The map's entries in insertion order with their counts. |
| `MainSite.BuildCategories` | frontend/src/pages/MainSite.jsx:56-63 | The memo computes exactly "All" followed by the per-category counts. |
| `MainSite.FirstOccurrencesOnce` | frontend/src/pages/MainSite.jsx:57-61 | Each category is a key exactly once. |
| `MainSite.CountsAddUp` | frontend/src/pages/MainSite.jsx:57-61 | The per-category counts sum to the number of posts. |
| `MainSite.CategoriesShape` | frontend/src/pages/MainSite.jsx:56-63 | "All" comes first with the number of posts. The other counts sum to it, and every post's category, "Uncategorized" when absent, has an entry. |
| `MainSite.FilteredIsOneFilter` | frontend/src/pages/MainSite.jsx:66-84 | The chained filters are one order-preserving filter by "shown, in the category, matches the query". |
| `MainSite.BlankQueryFiltersNothing` | frontend/src/pages/MainSite.jsx:67-70 | A whitespace-only query applies no text filter. |
| `MainSite.FilteredIff` | frontend/src/pages/MainSite.jsx:66-84 | A post is listed exactly when it is published or has no status, in the active category unless that is "all", and its lower-cased fields contain the trimmed, lower-cased query. |
| `MainSite.TotalPages` | frontend/src/pages/MainSite.jsx:87 | At least one page, and as many as nine-post pages needed for n posts and no more. |
| `MainSite.Visible` | frontend/src/pages/MainSite.jsx:91-94 | A page shows at most nine posts. |
| `MainSite.EveryItemOnItsPage` | frontend/src/pages/MainSite.jsx:91-94 | Item j is item j % 9 of page j / 9 + 1, a page the pager offers. |
| `MainSite.PagePastEndEmpty` | frontend/src/pages/MainSite.jsx:88-94 | A page past the last one is empty. |
| `MainSite.PageStaysInRange` | frontend/src/pages/MainSite.jsx:88-90 | Prev, Next and the reset keep the page between 1 and the number of pages. |
| `MainSite.FindItem` | frontend/src/pages/MainSite.jsx:39-45 | A found post is in the list and passes the test; none is found only when none passes. |
| `MainSite.Featured` | frontend/src/pages/MainSite.jsx:33-45 | There is a featured post exactly when there are posts, and it is one of them. |
| `MainSite.FeaturedCascade` | frontend/src/pages/MainSite.jsx:37-45 | The order is: title match, then category ignoring case, then first published post, then first post. |
| `MainSite.FeaturedWithoutTop` | frontend/src/pages/MainSite.jsx:44-45 | Without a titled top post it is the first published post, else the first post. |
| `AdminPosts.SearchIff` | frontend/src/pages/Posts.jsx:44-57 | A blank search lists every post. Any other lists exactly the stored posts whose title, tags or keywords contain the lower-cased query. |
| `AdminPosts.SearchKeepsSpaces` | frontend/src/pages/Posts.jsx:47 | The query is not trimmed, so " news" misses the title "news". |
| `AdminPosts.DeleteIff` | frontend/src/pages/Posts.jsx:65-66 | Delete keeps exactly the posts with another id, and never adds any. |
| `AdminPosts.FilterCommutes` | frontend/src/pages/Posts.jsx:49-66 | Two per-post filters commute. |
| `AdminPosts.DeleteAgreesWithSearch` | frontend/src/pages/Posts.jsx:44-66 | Removing the post from the filtered list gives the same list as searching the shortened list. |
| `Dashboard.InsertByViews` | frontend/src/pages/Dashboard.jsx:47 | Inserting adds exactly one element. |
| `Dashboard.SortByViews` | frontend/src/pages/Dashboard.jsx:46-47 | The sorted copy has the input's length. |
| `Dashboard.InsertPermutes` | frontend/src/pages/Dashboard.jsx:47 | Inserting adds exactly the element to the multiset. |
| `Dashboard.InsertDescending` | frontend/src/pages/Dashboard.jsx:47 | Inserting into a descending list keeps it descending. |
| `Dashboard.SortByViewsCorrect` | frontend/src/pages/Dashboard.jsx:46-47 | The sort is a permutation, most viewed first, with missing views as 0. |
| `Dashboard.InsertStable` | frontend/src/pages/Dashboard.jsx:47 | Insertion keeps the order of equal-view posts. |
| `Dashboard.SortByViewsStable` | frontend/src/pages/Dashboard.jsx:46-47 | Posts with equal views keep their input order. |
| `Dashboard.ShortTitle` | frontend/src/pages/Dashboard.jsx:50 | A title over 20 characters becomes its first 20 plus "..."; others are unchanged. |
| `Dashboard.TopPosts` | frontend/src/pages/Dashboard.jsx:46-48 | min(n, 5) posts. |
| `Dashboard.TopFive` | frontend/src/pages/Dashboard.jsx:46-53 | One chart entry per top post, in order. |
| `Dashboard.TopPostsShape` | frontend/src/pages/Dashboard.jsx:46-48 | At most five posts, all from the list, most viewed first. |
| `Dashboard.TopPostsAreTop` | frontend/src/pages/Dashboard.jsx:46-48 | No post left out has more views than any chosen one. |
| `Dashboard.TopFiveEntries` | frontend/src/pages/Dashboard.jsx:46-53 | min(n, 5) entries ordered by views, each made from a post of the list. |
| `Dashboard.RecentPosts` | frontend/src/pages/Dashboard.jsx:44 | The first min(n, 5) posts in input order. |
| `Dashboard.DailyViews` | frontend/src/pages/Dashboard.jsx:70-80 | A non-empty series is shown as is; a missing or empty one gives seven zero-view days. |

## Left out

- Rendering, routing and UI state of the React pages, the network client, the auth
  context, media uploads, router mounting and the Express middleware are not part of this
  model.
- The post update (PUT) and delete routes of backend/routes/post.js are not modelled. They
  only forward to the database.
- `/me`, the counters and aggregations of `/summary` (`countDocuments`, `aggregate`, the
  top-post query) and every `Audit.create` write are not modelled. Notifications take the
  audit records, newest first, and a map of post titles as inputs.
- Concurrency is not modelled. Requests, the sweep interval and the `Promise.all` in
  notifications run strictly one after another.
- JWT expiry is kept in milliseconds; `jsonwebtoken` counts whole seconds.
- bcrypt's 72-byte truncation is not modelled, and the hash primitives are arbitrary
  functions.
- Strings are sequences of characters, not UTF-16 code units. Lower-casing maps only
  ASCII letters, and trimming uses a fixed whitespace set, not all of Unicode.
- `sanitizeHtml` is a function parameter. Date formatting (`toISOString`, `toUTCString`)
  is given by function parameters.
- AuthSummary.WeekdayName: the weekday comes from a UTC day number; `toLocaleDateString`
  uses the server's local time zone.
- AuthRoutes.Login: the `isEmail` validator is not modelled, so an ill-formed email is
  looked up rather than refused with 400. request-password-reset and reset-password never
  consult their validators (auth.js:157, 169-171), so there the model follows the code.
- The schema fields `heroImage`, `twoFA`, `viewLogs`, `createdBy` and `updatedAt` are not
  modelled. The sitemap's `lastmod` is a function parameter.
- PostRoutes.PublicList: `page` and `limit` are integers; non-numeric query strings, which
  give `NaN`, are not modelled.
- Database sort orders (`createdAt` and `updatedAt` descending) are not modelled: the
  collections are given in the order the query sorts them.
- Server.Sweep: the sweep is modelled over the whole collection rather than over the
  query's result. Posts that are not due are left unchanged, so the outcome is the same.
- Dashboard: the copy that `[...posts]` sorts leaves the input list alone. Lists are
  values here, so no separate statement is needed.
- Dashboard.ShortTitle: a post without a title would throw in the page; titles are
  always present here.
- `chartData` and `categoryData` of Dashboard.jsx are not modelled.
- AdminPosts.Delete is the state after a successful API call; the confirmation dialog
  and the failure branch are not modelled.
- Cookies set or cleared by the auth handlers are not modelled; only the reply and the
  account change are.

## Findings

| source | as written | input that shows it | evidently intended | confidence | as-written member | corrected member |
|---|---|---|---|---|---|---|
| backend/routes/auth.js:167-180 | reset-password declares `isLength({ min: 6 })` on the password but never consults `validationResult`, so any password is accepted | a valid reset token with the password "" (`AuthProperties.ResetAsWrittenAcceptsShortPassword`) | refuse a password under six characters with 400 and change nothing, as login does (`AuthProperties.ResetRejectsShortPassword`) | not executed | `AuthRoutes.ResetStepAsWritten` | `AuthRoutes.ResetStep` |
