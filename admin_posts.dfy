/** The admin post list, frontend/src/pages/Posts.jsx: the search effect and the delete
    handler, which drops the post from both the full and the filtered list. */
module AdminPosts {
  import opened Common
  import opened Text
  import opened Client

  /** The search effect's test for the lower-cased query `q`: the title, or the tags or
      keywords joined with ",", contains it ignoring case. */
  predicate SearchHit(p: Item, q: string)
  {
    Contains(Lower(p.title), q) || Contains(Lower(Join(p.tags, ",")), q) ||
    Contains(Lower(Join(p.keywords, ",")), q)
  }

  function SearchHits(q: string): Item -> bool
  {
    p => SearchHit(p, q)
  }

  /** The search effect: a search that is blank once trimmed shows every post; any other is
      lower-cased, but not trimmed, and filters the posts. */
  function Search(posts: seq<Item>, search: string): seq<Item>
  {
    if Trim(search) == "" then posts else Filter(posts, SearchHits(Lower(search)))
  }

  /** A blank search lists everything; any other lists exactly the posts it hits, in their
      order. */
  lemma SearchIff(posts: seq<Item>, search: string, p: Item)
    ensures Trim(search) == "" ==> Search(posts, search) == posts
    ensures Trim(search) != "" ==> (p in Search(posts, search) <==> p in posts && SearchHit(p, Lower(search)))
  {
    if Trim(search) != "" && p in posts && SearchHit(p, Lower(search)) {
      FilterKeeps(posts, SearchHits(Lower(search)), p);
    }
  }

  /** The query keeps the spaces around it, so a search with a leading space misses a post
      whose title only starts with the word. */
  lemma SearchKeepsSpaces()
    ensures !SearchHit(Item(0, "news", "", "", "", "", "", "", [], [], None), " news")
  {
    var p := Item(0, "news", "", "", "", "", "", "", [], [], None);
    assert Lower("news") == "news" by {
      LowerNoCapitals("news");
    }
    assert Join(p.tags, ",") == "";
    assert Lower("") == "";
    assert !Contains("news", " news");
  }

  /** `prev.filter((p) => p._id !== id)`. */
  function Delete(posts: seq<Item>, id: nat): seq<Item>
  {
    Filter(posts, (p: Item) => p.id != id)
  }

  /** Deleting removes exactly the posts with that id and keeps the rest in order. */
  lemma DeleteIff(posts: seq<Item>, id: nat, p: Item)
    ensures p in Delete(posts, id) <==> p in posts && p.id != id
    ensures |Delete(posts, id)| <= |posts|
  {
    if p in posts && p.id != id {
      FilterKeeps(posts, (x: Item) => x.id != id, p);
    }
  }

  /** Both filters keep a post by a test on that post alone, so they commute. */
  lemma {:induction false} FilterCommutes<T>(s: seq<T>, p: T -> bool, q: T -> bool)
    ensures Filter(Filter(s, p), q) == Filter(Filter(s, q), p)
  {
    if s != [] {
      FilterCommutes(s[1..], p, q);
      var hp := if p(s[0]) then [s[0]] else [];
      var hq := if q(s[0]) then [s[0]] else [];
      FilterConcat(hp, Filter(s[1..], p), q);
      FilterConcat(hq, Filter(s[1..], q), p);
    }
  }

  /** The delete handler updates the filtered list directly; the search effect, re-run
      because the full list changed, computes the same list from the shortened posts. */
  lemma DeleteAgreesWithSearch(posts: seq<Item>, search: string, id: nat)
    ensures Delete(Search(posts, search), id) == Search(Delete(posts, id), search)
  {
    if Trim(search) != "" {
      FilterCommutes(posts, SearchHits(Lower(search)), (p: Item) => p.id != id);
    }
  }
}
