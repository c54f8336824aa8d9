/** A post as the React pages receive it from the JSON API. Any field may be missing from
    the JSON, so the pages guard each one with `||`; a missing string is "" here, a
    missing list is [], and a missing view count is `None`. */
module Client {
  import opened Common

  datatype Item = Item(
    id: nat,
    title: string,
    slug: string,
    excerpt: string,
    category: string,
    metaTitle: string,
    metaDescription: string,
    status: string,
    tags: seq<string>,
    keywords: seq<string>,
    views: Option<nat>)

  /** `p.views || 0`. */
  function ViewsOf(p: Item): nat
  {
    if p.views.Some? then p.views.value else 0
  }

  /** The index of the first element satisfying `p` (`Array.prototype.findIndex`). */
  function FindFirst<T>(s: seq<T>, p: T -> bool): (r: Option<nat>)
    ensures r.Some? ==> r.value < |s| && p(s[r.value]) && forall j :: 0 <= j < r.value ==> !p(s[j])
    ensures r.None? ==> forall j :: 0 <= j < |s| ==> !p(s[j])
  {
    if s == [] then None
    else if p(s[0]) then Some(0)
    else match FindFirst(s[1..], p)
      case None => None
      case Some(k) => Some(k + 1)
  }
}
