/** The public home page, frontend/src/pages/MainSite.jsx: the category counts built with a
    `Map`, the search and category filter, the nine-per-page pagination with its page
    clamping, and the choice of the featured post. */
module MainSite {
  import opened Common
  import opened Text
  import opened Client

  // ---------------------------------------------------------------------------------
  // Categories.

  const Uncategorized: string := "Uncategorized"

  /** `p.category || "Uncategorized"`. */
  function CategoryOf(p: Item): string
  {
    if p.category != "" then p.category else Uncategorized
  }

  function CategoryNames(posts: seq<Item>): (r: seq<string>)
    ensures |r| == |posts|
    ensures forall i :: 0 <= i < |posts| ==> r[i] == CategoryOf(posts[i])
  {
    if posts == [] then [] else CategoryNames(posts[..|posts| - 1]) + [CategoryOf(posts[|posts| - 1])]
  }

  /** How often `c` occurs in `xs`. */
  function Count(xs: seq<string>, c: string): nat
  {
    if xs == [] then 0 else Count(xs[..|xs| - 1], c) + (if xs[|xs| - 1] == c then 1 else 0)
  }

  /** The distinct elements of `xs` in order of first occurrence: the key order of a `Map`
      filled from `xs`. */
  function FirstOccurrences(xs: seq<string>): (r: seq<string>)
    ensures forall c :: c in r <==> c in xs
  {
    if xs == [] then []
    else
      var f := FirstOccurrences(xs[..|xs| - 1]);
      assert forall c :: c in xs <==> c in xs[..|xs| - 1] || c == xs[|xs| - 1];
      if xs[|xs| - 1] in f then f else f + [xs[|xs| - 1]]
  }

  /** One button of the category bar. */
  datatype CategoryCount = CategoryCount(name: string, key: string, count: nat)

  /** The first button, counting every post. */
  function AllEntry(n: nat): (r: CategoryCount)
    ensures r.count == n
  {
    CategoryCount("All", "all", n)
  }

  function CountsOf(keys: seq<string>, names: seq<string>): (r: seq<CategoryCount>)
    ensures |r| == |keys|
    ensures forall i :: 0 <= i < |keys| ==> r[i] == CategoryCount(keys[i], keys[i], Count(names, keys[i]))
  {
    if keys == [] then [] else CountsOf(keys[..|keys| - 1], names) + [CategoryCount(keys[|keys| - 1], keys[|keys| - 1], Count(names, keys[|keys| - 1]))]
  }

  /** The `categories` memo: "All" with the number of posts, then one entry per category in
      order of first appearance with its number of posts. */
  function Categories(posts: seq<Item>): seq<CategoryCount>
  {
    [AllEntry(|posts|)] + CountsOf(FirstOccurrences(CategoryNames(posts)), CategoryNames(posts))
  }

  lemma FirstOccurrencesSnoc(xs: seq<string>, c: string)
    ensures FirstOccurrences(xs + [c]) ==
      if c in FirstOccurrences(xs) then FirstOccurrences(xs) else FirstOccurrences(xs) + [c]
  {
    assert (xs + [c])[..|xs|] == xs;
  }

  lemma CountSnoc(xs: seq<string>, c: string)
    ensures forall d :: Count(xs + [c], d) == Count(xs, d) + (if c == d then 1 else 0)
  {
    assert (xs + [c])[..|xs|] == xs;
  }

  /** The map after the names `seen`: its keys in insertion order are their first
      occurrences, and each holds how often it was seen. */
  ghost predicate Tally(seen: seq<string>, keys: seq<string>, counts: map<string, nat>)
  {
    keys == FirstOccurrences(seen) &&
    (forall c :: c in counts <==> c in keys) &&
    forall c :: c in counts ==> counts[c] == Count(seen, c)
  }

  /** `map.set(c, (map.get(c) || 0) + 1)` keeps the tally. */
  lemma TallyStep(seen: seq<string>, keys: seq<string>, counts: map<string, nat>, c: string)
    requires Tally(seen, keys, counts)
    ensures Tally(seen + [c], if c in counts then keys else keys + [c],
                  counts[c := (if c in counts then counts[c] else 0) + 1])
  {
    FirstOccurrencesSnoc(seen, c);
    CountSnoc(seen, c);
    if c !in counts {
      CountAbsent(seen, c);
    }
  }

  lemma PrefixSnoc<T>(s: seq<T>, i: nat)
    requires i < |s|
    ensures s[..i + 1] == s[..i] + [s[i]]
  {
  }

  /** The `forEach` that fills the `Map`: `keys` is the map's insertion order. */
  method CountCategories(posts: seq<Item>) returns (keys: seq<string>, counts: map<string, nat>)
    ensures Tally(CategoryNames(posts), keys, counts)
  {
    ghost var names := CategoryNames(posts);
    ghost var seen: seq<string> := [];
    keys := [];
    counts := map[];
    for i := 0 to |posts|
      invariant seen == names[..i]
      invariant Tally(seen, keys, counts)
    {
      var c := CategoryOf(posts[i]);
      TallyStep(seen, keys, counts, c);
      PrefixSnoc(names, i);
      var n := if c in counts then counts[c] else 0;
      keys := if c in counts then keys else keys + [c];
      counts := counts[c := n + 1];
      seen := seen + [c];
    }
    assert seen == names;
  }

  /** `Array.from(map.entries())` after the "All" entry. */
  method BuildCategories(posts: seq<Item>) returns (r: seq<CategoryCount>)
    ensures r == Categories(posts)
  {
    var keys, counts := CountCategories(posts);
    var entries := MapEntries(keys, counts, CategoryNames(posts));
    r := [AllEntry(|posts|)] + entries;
  }

  /** The map's entries in insertion order, each with the count the map holds. */
  method MapEntries(keys: seq<string>, counts: map<string, nat>, ghost names: seq<string>)
    returns (entries: seq<CategoryCount>)
    requires forall c :: c in keys ==> c in counts && counts[c] == Count(names, c)
    ensures entries == CountsOf(keys, names)
  {
    ghost var done: seq<string> := [];
    entries := [];
    for i := 0 to |keys|
      invariant done == keys[..i]
      invariant entries == CountsOf(done, names)
    {
      CountsOfSnoc(done, keys[i], names);
      entries := entries + [CategoryCount(keys[i], keys[i], counts[keys[i]])];
      done := done + [keys[i]];
    }
    assert done == keys;
  }

  lemma CountsOfSnoc(keys: seq<string>, c: string, names: seq<string>)
    ensures CountsOf(keys + [c], names) == CountsOf(keys, names) + [CategoryCount(c, c, Count(names, c))]
  {
    assert (keys + [c])[..|keys|] == keys;
  }

  function SumCounts(es: seq<CategoryCount>): nat
  {
    if es == [] then 0 else SumCounts(es[..|es| - 1]) + es[|es| - 1].count
  }

  /** Each key appears once among the first occurrences. */
  lemma {:induction false} FirstOccurrencesOnce(xs: seq<string>, c: string)
    requires c in xs
    ensures Count(FirstOccurrences(xs), c) == 1
  {
    var init := xs[..|xs| - 1];
    var f := FirstOccurrences(init);
    if c in init {
      FirstOccurrencesOnce(init, c);
      if xs[|xs| - 1] !in f {
        assert (f + [xs[|xs| - 1]])[..|f|] == f;
      }
    } else {
      CountAbsent(f, c);
      assert (f + [c])[..|f|] == f;
    }
  }

  lemma {:induction false} CountAbsent(xs: seq<string>, c: string)
    requires c !in xs
    ensures Count(xs, c) == 0
  {
    if xs != [] {
      assert forall x :: x in xs[..|xs| - 1] ==> x in xs;
      CountAbsent(xs[..|xs| - 1], c);
    }
  }

  /** Summing the counts of the keys `keys` over one more name adds how often that name is
      a key. */
  lemma {:induction false} SumCountsSnoc(keys: seq<string>, names: seq<string>, x: string)
    ensures SumCounts(CountsOf(keys, names + [x])) == SumCounts(CountsOf(keys, names)) + Count(keys, x)
  {
    if keys != [] {
      var init := keys[..|keys| - 1];
      SumCountsSnoc(init, names, x);
      assert (names + [x])[..|names|] == names;
      assert CountsOf(keys, names + [x])[..|init|] == CountsOf(init, names + [x]);
      assert CountsOf(keys, names)[..|init|] == CountsOf(init, names);
    }
  }

  lemma SumCountsAppend(keys: seq<string>, names: seq<string>, c: string)
    ensures SumCounts(CountsOf(keys + [c], names)) == SumCounts(CountsOf(keys, names)) + Count(names, c)
  {
    CountsOfSnoc(keys, c, names);
    assert (CountsOf(keys, names) + [CategoryCount(c, c, Count(names, c))])[..|keys|] == CountsOf(keys, names);
  }

  /** The per-category counts add up to the number of names. */
  lemma {:induction false} CountsAddUp(names: seq<string>)
    ensures SumCounts(CountsOf(FirstOccurrences(names), names)) == |names|
  {
    if names != [] {
      var init := names[..|names| - 1];
      CountsAddUp(init);
      CountsAddUpStep(init, names[|names| - 1]);
      LastSplit(names);
    }
  }

  lemma LastSplit<T>(s: seq<T>)
    requires s != []
    ensures s[..|s| - 1] + [s[|s| - 1]] == s
  {
  }

  /** One more name adds one to the total: to its key's count when the key exists, as a
      new key with count one otherwise. */
  lemma CountsAddUpStep(init: seq<string>, x: string)
    ensures SumCounts(CountsOf(FirstOccurrences(init + [x]), init + [x])) == SumCounts(CountsOf(FirstOccurrences(init), init)) + 1
  {
    if x in init {
      SeenNameAddsOne(init, x);
    } else {
      NewNameAddsOne(init, x);
    }
  }

  lemma SeenNameAddsOne(init: seq<string>, x: string)
    requires x in init
    ensures SumCounts(CountsOf(FirstOccurrences(init + [x]), init + [x])) ==
            SumCounts(CountsOf(FirstOccurrences(init), init)) + 1
  {
    FirstOccurrencesSnoc(init, x);
    SumCountsSnoc(FirstOccurrences(init), init, x);
    FirstOccurrencesOnce(init, x);
  }

  lemma NewNameAddsOne(init: seq<string>, x: string)
    requires x !in init
    ensures SumCounts(CountsOf(FirstOccurrences(init + [x]), init + [x])) ==
            SumCounts(CountsOf(FirstOccurrences(init), init)) + 1
  {
    var f := FirstOccurrences(init);
    FirstOccurrencesSnoc(init, x);
    assert SumCounts(CountsOf(f, init + [x])) == SumCounts(CountsOf(f, init)) by {
      SumCountsSnoc(f, init, x);
      CountAbsent(f, x);
    }
    assert Count(init + [x], x) == 1 by {
      CountSnoc(init, x);
      CountAbsent(init, x);
    }
    SumCountsAppend(f, init + [x], x);
  }

  /** "All" comes first with the number of posts, and the other entries together count
      every post exactly once, a post without a category under "Uncategorized". */
  lemma CategoriesShape(posts: seq<Item>)
    ensures var cs := Categories(posts);
      cs[0] == AllEntry(|posts|) && SumCounts(cs[1..]) == |posts|
    ensures forall p :: p in posts ==> exists i :: 1 <= i < |Categories(posts)| && Categories(posts)[i].name == CategoryOf(p)
  {
    var names := CategoryNames(posts);
    var cs := Categories(posts);
    assert cs[1..] == CountsOf(FirstOccurrences(names), names);
    CountsAddUp(names);
    forall p | p in posts
      ensures exists i :: 1 <= i < |cs| && cs[i].name == CategoryOf(p)
    {
      var j :| 0 <= j < |posts| && posts[j] == p;
      assert names[j] in FirstOccurrences(names);
      var k :| 0 <= k < |FirstOccurrences(names)| && FirstOccurrences(names)[k] == names[j];
      assert cs[k + 1].name == CategoryOf(p);
    }
  }

  // ---------------------------------------------------------------------------------
  // Search and category filter.

  /** `p.status === "published" || !p.status`. */
  predicate Shown(p: Item)
  {
    p.status == "published" || p.status == ""
  }

  /** The text the search looks in: six fields joined with spaces, lower-cased. */
  function SearchText(p: Item): string
  {
    Lower(Join([p.title, p.excerpt, p.category, p.metaTitle, p.metaDescription, Join(p.tags, ", ")], " "))
  }

  /** The category filter's callback. */
  function InCategory(cat: string): Item -> bool
  {
    p => CategoryOf(p) == cat
  }

  /** The search filter's callback for the normalised query `s`. */
  function Hits(s: string): Item -> bool
  {
    p => Contains(SearchText(p), s)
  }

  /** The `filtered` memo: shown posts, then the active category unless it is "all", then
      the trimmed, lower-cased query unless it is blank. */
  function Filtered(posts: seq<Item>, q: string, activeCat: string): seq<Item>
  {
    var s := Lower(Trim(q));
    var shown := Filter(posts, Shown);
    var inCat := if activeCat != "all" then Filter(shown, InCategory(activeCat)) else shown;
    if s != "" then Filter(inCat, Hits(s)) else inCat
  }

  /** Everything the three filters ask of one post. */
  predicate Matches(p: Item, q: string, activeCat: string)
  {
    Shown(p) && (activeCat == "all" || CategoryOf(p) == activeCat) &&
    (Lower(Trim(q)) == "" || Contains(SearchText(p), Lower(Trim(q))))
  }

  /** `Matches` as a callback. */
  function Matching(q: string, activeCat: string): Item -> bool
  {
    p => Matches(p, q, activeCat)
  }

  /** Two filters with the same predicate, written differently, agree. */
  lemma {:induction false} FilterSame<T>(s: seq<T>, p: T -> bool, q: T -> bool)
    requires forall x :: p(x) == q(x)
    ensures Filter(s, p) == Filter(s, q)
  {
    if s != [] {
      FilterSame(s[1..], p, q);
    }
  }

  /** Filtering twice is filtering once by both callbacks, stated for callbacks that agree
      with a third one. */
  lemma FilterTwice<T>(s: seq<T>, p: T -> bool, q: T -> bool, m: T -> bool)
    requires forall x :: m(x) == (p(x) && q(x))
    ensures Filter(Filter(s, p), q) == Filter(s, m)
  {
    FilterFilter(s, p, q);
    FilterSame(s, x => p(x) && q(x), m);
  }

  /** The chained filters are one order-preserving filter of the posts: a post is listed
      exactly when it is shown, in the active category and matches the query, and the
      listed posts keep their relative order. */
  lemma FilteredIsOneFilter(posts: seq<Item>, q: string, activeCat: string)
    ensures Filtered(posts, q, activeCat) == Filter(posts, Matching(q, activeCat))
  {
    var s := Lower(Trim(q));
    var m := Matching(q, activeCat);
    if activeCat != "all" {
      var both: Item -> bool := x => Shown(x) && CategoryOf(x) == activeCat;
      FilterTwice(posts, Shown, InCategory(activeCat), both);
      if s != "" {
        FilterTwice(posts, both, Hits(s), m);
      } else {
        FilterSame(posts, both, m);
      }
    } else if s != "" {
      FilterTwice(posts, Shown, Hits(s), m);
    } else {
      FilterSame(posts, Shown, m);
    }
  }

  /** A blank query (only whitespace) applies no text filter. */
  lemma BlankQueryFiltersNothing(posts: seq<Item>, q: string, activeCat: string)
    requires Trim(q) == ""
    ensures Filtered(posts, q, activeCat) == Filtered(posts, "", activeCat)
  {
  }

  lemma FilteredIff(posts: seq<Item>, q: string, activeCat: string, p: Item)
    ensures p in Filtered(posts, q, activeCat) <==> p in posts && Matches(p, q, activeCat)
  {
    FilteredIsOneFilter(posts, q, activeCat);
    if p in posts && Matches(p, q, activeCat) {
      FilterKeeps(posts, Matching(q, activeCat), p);
    }
  }

  // ---------------------------------------------------------------------------------
  // Pagination.

  const PageSize: nat := 9

  /** `Math.max(1, Math.ceil(n / PAGE_SIZE))`. */
  function TotalPages(n: nat): (r: nat)
    ensures r >= 1
    ensures (r - 1) * PageSize < n || (n == 0 && r == 1)
    ensures n <= r * PageSize
  {
    if n == 0 then 1 else (n + PageSize - 1) / PageSize
  }

  /** The `visible` memo: `filtered.slice(start, start + PAGE_SIZE)`. */
  function Visible<T>(filtered: seq<T>, page: nat): (r: seq<T>)
    requires page >= 1
    ensures |r| <= PageSize
  {
    Slice(filtered, (page - 1) * PageSize, PageSize)
  }

  /** Every listed post is on exactly the page its position says, and that page is one the
      pager offers: the item at index j is item j % 9 of page j / 9 + 1. */
  lemma EveryItemOnItsPage<T>(filtered: seq<T>, j: nat)
    requires j < |filtered|
    ensures var page := j / PageSize + 1;
      page <= TotalPages(|filtered|) &&
      j % PageSize < |Visible(filtered, page)| && Visible(filtered, page)[j % PageSize] == filtered[j]
  {
    var page := j / PageSize + 1;
    var n := |filtered|;
    assert (page - 1) * PageSize == j - j % PageSize;
    assert (n + PageSize - 1) / PageSize >= page by {
      assert n + PageSize - 1 >= page * PageSize;
    }
  }

  /** A page past the last one is empty, which the reset effect then corrects. */
  lemma PagePastEndEmpty<T>(filtered: seq<T>, page: nat)
    requires page > TotalPages(|filtered|)
    ensures Visible(filtered, page) == []
  {
    assert (page - 1) * PageSize >= TotalPages(|filtered|) * PageSize;
  }

  /** The Prev button's update `Math.max(1, s - 1)`. */
  function Prev(page: nat): nat
  {
    if page >= 2 then page - 1 else 1
  }

  /** The Next button's update `Math.min(totalPages, s + 1)`. */
  function Next(page: nat, total: nat): nat
  {
    if page + 1 <= total then page + 1 else total
  }

  /** The effect on `totalPages`: a page beyond the last resets to 1. */
  function Clamp(page: nat, total: nat): nat
  {
    if page > total then 1 else page
  }

  /** The pager keeps the page between 1 and the number of pages: Prev and Next stay in
      range, and the reset brings any page back into it. */
  lemma PageStaysInRange(page: nat, total: nat)
    requires total >= 1
    ensures 1 <= page <= total ==> 1 <= Prev(page) <= total && 1 <= Next(page, total) <= total
    ensures 1 <= page ==> 1 <= Clamp(page, total) <= total
    ensures 1 <= page <= total ==> Clamp(page, total) == page
    ensures 1 <= page < total ==> Next(page, total) == page + 1
    ensures 1 < page <= total ==> Prev(page) == page - 1
  {
  }

  // ---------------------------------------------------------------------------------
  // Featured post.

  /** The `topPost` of the summary route: the most viewed post's title and category. */
  datatype TopPost = TopPost(title: string, category: string)

  function FindItem(items: seq<Item>, p: Item -> bool): (r: Option<Item>)
    ensures r.Some? ==> r.value in items && p(r.value)
    ensures r.None? ==> forall x :: x in items ==> !p(x)
  {
    match FindFirst(items, p)
    case None => None
    case Some(i) => Some(items[i])
  }

  /** `items.find(...) || items.find(...) || null` for a top post with a title, nothing
      otherwise. */
  function TopMatch(items: seq<Item>, top: Option<TopPost>): Option<Item>
  {
    if top.None? || top.value.title == "" then None
    else
      var byTitle := FindItem(items, (p: Item) => p.title == top.value.title);
      if byTitle.Some? then byTitle
      else FindItem(items, (p: Item) => Lower(p.category) == Lower(top.value.category))
  }

  /** `featuredPost || items.find(p => p.status === "published") || items[0] || null`. */
  function Featured(items: seq<Item>, top: Option<TopPost>): (r: Option<Item>)
    ensures r.Some? <==> items != []
    ensures r.Some? ==> r.value in items
  {
    var m := TopMatch(items, top);
    if m.Some? then m
    else
      var pub := FindItem(items, (p: Item) => p.status == "published");
      if pub.Some? then pub else if items != [] then Some(items[0]) else None
  }

  /** The fallbacks in order: the first post with the top post's title, else the first
      with its category ignoring case, else the first published post, else the first post. */
  lemma FeaturedCascade(items: seq<Item>, top: TopPost)
    requires top.title != ""
    ensures var r := Featured(items, Some(top));
      var t := FindFirst(items, (p: Item) => p.title == top.title);
      var c := FindFirst(items, (p: Item) => Lower(p.category) == Lower(top.category));
      var pub := FindFirst(items, (p: Item) => p.status == "published");
      (t.Some? ==> r == Some(items[t.value])) &&
      (t.None? && c.Some? ==> r == Some(items[c.value])) &&
      (t.None? && c.None? && pub.Some? ==> r == Some(items[pub.value])) &&
      (t.None? && c.None? && pub.None? && items != [] ==> r == Some(items[0]))
  {
  }

  /** Without a usable top post the featured post is the first published one, or the first
      post when none is published. */
  lemma FeaturedWithoutTop(items: seq<Item>, top: Option<TopPost>)
    requires top.None? || top.value.title == ""
    ensures var r := Featured(items, top);
      var pub := FindFirst(items, (p: Item) => p.status == "published");
      (pub.Some? ==> r == Some(items[pub.value])) && (pub.None? && items != [] ==> r == Some(items[0]))
  {
  }
}
