/** The admin dashboard, frontend/src/pages/Dashboard.jsx: the five most viewed posts, the
    five most recent ones, and the fallback for an empty daily-view series. */
module Dashboard {
  import opened Common
  import opened Client
  import AuthSummary
  import PostRoutes

  // ---------------------------------------------------------------------------------
  // Ranking by views.

  /** Views never increase from left to right. */
  predicate Descending(s: seq<Item>)
  {
    forall i, j :: 0 <= i < j < |s| ==> ViewsOf(s[i]) >= ViewsOf(s[j])
  }

  /** Places `x` before the first element with at most its views, so it stays ahead of the
      elements it ties with that came after it in the input. */
  function InsertByViews(x: Item, s: seq<Item>): (r: seq<Item>)
    ensures |r| == |s| + 1
  {
    if s == [] then [x]
    else if ViewsOf(s[0]) <= ViewsOf(x) then [x] + s
    else [s[0]] + InsertByViews(x, s[1..])
  }

  /** `[...posts].sort((a, b) => (b.views || 0) - (a.views || 0))`: a stable sort, most
      viewed first, on a copy of the list. */
  function SortByViews(s: seq<Item>): (r: seq<Item>)
    ensures |r| == |s|
  {
    if s == [] then [] else InsertByViews(s[0], SortByViews(s[1..]))
  }

  lemma {:induction false} InsertPermutes(x: Item, s: seq<Item>)
    ensures multiset(InsertByViews(x, s)) == multiset(s) + multiset{x}
  {
    if s != [] && ViewsOf(s[0]) > ViewsOf(x) {
      InsertPermutes(x, s[1..]);
      assert s == [s[0]] + s[1..];
    }
  }

  lemma {:induction false} InsertDescending(x: Item, s: seq<Item>)
    requires Descending(s)
    ensures Descending(InsertByViews(x, s))
  {
    if s != [] && ViewsOf(s[0]) > ViewsOf(x) {
      InsertDescending(x, s[1..]);
      InsertPermutes(x, s[1..]);
      var t := InsertByViews(x, s[1..]);
      forall k | 0 <= k < |t|
        ensures ViewsOf(s[0]) >= ViewsOf(t[k])
      {
        assert t[k] in multiset(t);
        assert t[k] in multiset(s[1..]) || t[k] == x;
      }
    }
  }

  /** The sort is a permutation of its input ordered by views, most viewed first. */
  lemma {:induction false} SortByViewsCorrect(s: seq<Item>)
    ensures multiset(SortByViews(s)) == multiset(s)
    ensures Descending(SortByViews(s))
  {
    if s != [] {
      SortByViewsCorrect(s[1..]);
      InsertPermutes(s[0], SortByViews(s[1..]));
      InsertDescending(s[0], SortByViews(s[1..]));
      assert s == [s[0]] + s[1..];
    }
  }

  function WithViews(v: nat): Item -> bool
  {
    p => ViewsOf(p) == v
  }

  lemma {:induction false} InsertStable(x: Item, s: seq<Item>, v: nat)
    ensures Filter(InsertByViews(x, s), WithViews(v)) ==
      (if ViewsOf(x) == v then [x] else []) + Filter(s, WithViews(v))
  {
    if s != [] && ViewsOf(s[0]) > ViewsOf(x) {
      InsertStable(x, s[1..], v);
      FilterConcat([s[0]], InsertByViews(x, s[1..]), WithViews(v));
      FilterConcat([s[0]], s[1..], WithViews(v));
      assert s == [s[0]] + s[1..];
    } else {
      FilterConcat([x], s, WithViews(v));
    }
  }

  /** The sort is stable: the posts with any one view count keep their input order. */
  lemma {:induction false} SortByViewsStable(s: seq<Item>, v: nat)
    ensures Filter(SortByViews(s), WithViews(v)) == Filter(s, WithViews(v))
  {
    if s != [] {
      SortByViewsStable(s[1..], v);
      InsertStable(s[0], SortByViews(s[1..]), v);
      FilterConcat([s[0]], s[1..], WithViews(v));
      assert s == [s[0]] + s[1..];
    }
  }

  // ---------------------------------------------------------------------------------
  // Top five.

  const TopCount: nat := 5
  const TitleWidth: nat := 20

  /** One bar of the top-posts chart. */
  datatype TopEntry = TopEntry(title: string, views: nat, category: string)

  /** A title longer than 20 characters is cut to 20 and followed by "...". */
  function ShortTitle(title: string): (r: string)
    ensures |title| <= TitleWidth ==> r == title
    ensures |title| > TitleWidth ==> r == title[..TitleWidth] + "..." && |r| == TitleWidth + 3
  {
    if |title| > TitleWidth then title[..TitleWidth] + "..." else title
  }

  function EntryOf(p: Item): TopEntry
  {
    TopEntry(ShortTitle(p.title), ViewsOf(p), p.category)
  }

  /** The posts behind the chart: the first five of the sorted copy. */
  function TopPosts(posts: seq<Item>): (r: seq<Item>)
    ensures |r| == Min(|posts|, TopCount)
  {
    Slice(SortByViews(posts), 0, TopCount)
  }

  /** The `topFive` chain: sort, take five, shorten the titles. */
  function TopFive(posts: seq<Item>): (r: seq<TopEntry>)
    ensures |r| == |TopPosts(posts)|
    ensures forall i :: 0 <= i < |r| ==> r[i] == EntryOf(TopPosts(posts)[i])
  {
    var best := TopPosts(posts);
    seq(|best|, i requires 0 <= i < |best| => EntryOf(best[i]))
  }

  /** At most five posts of the list, most viewed first. */
  lemma TopPostsShape(posts: seq<Item>)
    ensures var top := TopPosts(posts);
      |top| <= TopCount && Descending(top) && forall i :: 0 <= i < |top| ==> top[i] in posts
  {
    var sorted := SortByViews(posts);
    SortByViewsCorrect(posts);
    var top := TopPosts(posts);
    assert top == sorted[..|top|];
    forall i | 0 <= i < |top|
      ensures top[i] in posts
    {
      assert sorted[i] in multiset(posts);
    }
  }

  /** No post left out of the five has more views than any of them. */
  lemma TopPostsAreTop(posts: seq<Item>, p: Item)
    requires p in posts && p !in TopPosts(posts)
    ensures forall i :: 0 <= i < |TopPosts(posts)| ==> ViewsOf(TopPosts(posts)[i]) >= ViewsOf(p)
  {
    var sorted := SortByViews(posts);
    SortByViewsCorrect(posts);
    var top := TopPosts(posts);
    assert top == sorted[..|top|];
    assert p in multiset(sorted);
    var k :| 0 <= k < |sorted| && sorted[k] == p;
    assert k >= |top|;
  }

  /** The chart shows each of the five with its views, its category and its shortened
      title, most viewed first. */
  lemma TopFiveEntries(posts: seq<Item>)
    ensures var top := TopFive(posts);
      |top| == Min(|posts|, TopCount) &&
      (forall i, j :: 0 <= i < j < |top| ==> top[i].views >= top[j].views) &&
      forall i :: 0 <= i < |top| ==> exists p :: p in posts && top[i] == EntryOf(p)
  {
    TopPostsShape(posts);
    var best := TopPosts(posts);
    var top := TopFive(posts);
    forall i | 0 <= i < |top|
      ensures exists p :: p in posts && top[i] == EntryOf(p)
    {
      var p := best[i];
      assert p in posts && top[i] == EntryOf(p);
    }
    assert forall i :: 0 <= i < |top| ==> exists p :: p in posts && top[i] == EntryOf(p);
    assert forall i, j :: 0 <= i < j < |top| ==> top[i].views >= top[j].views;
  }

  /** `posts.slice(0, 5)`: the first five posts in the order the server sent them. */
  function RecentPosts(posts: seq<Item>): (r: seq<Item>)
    ensures |r| == Min(|posts|, TopCount) && r == posts[..|r|]
  {
    Slice(posts, 0, TopCount)
  }

  // ---------------------------------------------------------------------------------
  // Daily views.

  const FallbackWeek: seq<AuthSummary.DayViews> := [
    AuthSummary.DayViews("Mon", 0), AuthSummary.DayViews("Tue", 0), AuthSummary.DayViews("Wed", 0),
    AuthSummary.DayViews("Thu", 0), AuthSummary.DayViews("Fri", 0), AuthSummary.DayViews("Sat", 0),
    AuthSummary.DayViews("Sun", 0)]

  /** `dailyViewsData`: the summary's series when it is an array with elements, otherwise
      seven days Monday to Sunday with no views. */
  function DailyViews(last7Days: Option<seq<AuthSummary.DayViews>>): (r: seq<AuthSummary.DayViews>)
    ensures r != []
    ensures last7Days.Some? && last7Days.value != [] ==> r == last7Days.value
    ensures (last7Days.None? || last7Days.value == []) ==>
      |r| == 7 && forall k :: 0 <= k < 7 ==> r[k].views == 0
  {
    if last7Days.Some? && last7Days.value != [] then last7Days.value else FallbackWeek
  }

  /** The server always sends seven points, so the chart shows them and the fallback never
      appears for a successful summary. */
  lemma ServerSeriesShown(summaries: map<int, PostRoutes.DaySummary>, today: int)
    ensures DailyViews(Some(AuthSummary.LastSevenDays(summaries, today))) == AuthSummary.LastSevenDays(summaries, today)
  {
  }
}
