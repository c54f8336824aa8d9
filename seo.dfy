/** The two feeds of backend/routes/seo.js: sitemap.xml and rss.xml, both built by
    appending fixed text blocks to a string inside `forEach` loops. Each document is
    specified as a list of entries and the serialisation of that list; the loops are
    proved to build exactly that text. */
module Seo {
  import opened Common
  import opened Text
  import opened PostModel

  const BaseUrl: string := "https://currentnews365.com"
  const XmlDeclaration: string := "<?xml version=\"1.0\" encoding=\"UTF-8\"?>"
  const UrlsetOpen: string := "<urlset xmlns=\"http://www.sitemaps.org/schemas/sitemap/0.9\">"
  const UrlsetClose: string := "</urlset>"
  const StaticPages: seq<string> := ["about", "contact", "editorial-policy", "privacy", "terms"]
  const RssLimit: nat := 20

  /** The public address of a page or an article. */
  function PageUrl(path: string): string
  {
    BaseUrl + "/" + path
  }

  /** The `<loc>` element of an address. */
  function LocXml(url: string): string
  {
    "<loc>" + url + "</loc>"
  }

  // ---------------------------------------------------------------------------------
  // sitemap.xml

  /** One `<url>` element: the homepage, a static page, or a published article with its
      formatted `updatedAt`. */
  datatype SitemapEntry = Home | StaticPage(name: string) | Article(slug: string, lastmod: string)
  {
    function Loc(): string
    {
      match this
      case Home => PageUrl("")
      case StaticPage(name) => PageUrl(name)
      case Article(slug, _) => PageUrl(slug)
    }

    /** The template text up to the address. */
    function Opening(): string
    {
      if Home? then "\n      <url>\n        " else "\n        <url>\n          "
    }

    /** The template text after the address. */
    function Closing(): string
    {
      match this
      case Home =>
        "\n        <changefreq>hourly</changefreq>\n        <priority>1.0</priority>\n      </url>\n    "
      case StaticPage(_) =>
        "\n          <changefreq>monthly</changefreq>\n          <priority>0.6</priority>\n        </url>\n      "
      case Article(_, lastmod) =>
        "\n          <lastmod>" + lastmod + "</lastmod>\n          <changefreq>daily</changefreq>\n" +
        "          <priority>0.8</priority>\n        </url>\n      "
    }

    /** The text appended for the entry, whitespace included. */
    function Xml(): string
    {
      Opening() + LocXml(Loc()) + Closing()
    }
  }

  predicate IsPublished(p: Post)
  {
    p.status == Published
  }

  /** The query `Post.find({ status: "published" })`, in the order the database returns. */
  function PublishedPosts(posts: seq<Post>): (r: seq<Post>)
    ensures forall p :: p in r ==> p in posts && p.status == Published
  {
    Filter(posts, IsPublished)
  }

  function StaticEntries(pages: seq<string>): (r: seq<SitemapEntry>)
    ensures |r| == |pages|
    ensures forall i :: 0 <= i < |pages| ==> r[i] == StaticPage(pages[i])
  {
    if pages == [] then [] else [StaticPage(pages[0])] + StaticEntries(pages[1..])
  }

  function ArticleEntries(posts: seq<Post>, lastmod: Post -> string): (r: seq<SitemapEntry>)
    ensures |r| == |posts|
    ensures forall i :: 0 <= i < |posts| ==> r[i] == Article(posts[i].slug, lastmod(posts[i]))
  {
    if posts == [] then [] else [Article(posts[0].slug, lastmod(posts[0]))] + ArticleEntries(posts[1..], lastmod)
  }

  /** The entries in document order: homepage, static pages, then the published articles. */
  function SitemapEntries(posts: seq<Post>, lastmod: Post -> string): seq<SitemapEntry>
  {
    [Home] + StaticEntries(StaticPages) + ArticleEntries(PublishedPosts(posts), lastmod)
  }

  /** `acc` followed by the text of each entry in turn, as `xml +=` builds it. */
  function Render(acc: string, es: seq<SitemapEntry>): string
    decreases |es|
  {
    if es == [] then acc else Render(acc + es[0].Xml(), es[1..])
  }

  function Sitemap(posts: seq<Post>, lastmod: Post -> string): string
  {
    Render(XmlDeclaration + UrlsetOpen, SitemapEntries(posts, lastmod)) + UrlsetClose
  }

  /** `Render` over two lists is rendering the first, then the second after it. */
  lemma {:induction false} RenderConcat(acc: string, a: seq<SitemapEntry>, b: seq<SitemapEntry>)
    ensures Render(acc, a + b) == Render(Render(acc, a), b)
    decreases |a|
  {
    if a != [] {
      assert (a + b)[0] == a[0] && (a + b)[1..] == a[1..] + b;
      RenderConcat(acc + a[0].Xml(), a[1..], b);
    } else {
      assert a + b == b;
    }
  }

  /** One `forEach` that appends the block of every entry in turn. */
  method AppendEntries(xml0: string, es: seq<SitemapEntry>) returns (xml: string)
    ensures xml == Render(xml0, es)
  {
    xml := xml0;
    for i := 0 to |es|
      invariant Render(xml, es[i..]) == Render(xml0, es)
    {
      assert es[i..][0] == es[i] && es[i..][1..] == es[i + 1..];
      xml := xml + es[i].Xml();
    }
    assert es[|es|..] == [];
  }

  /** GET /sitemap.xml, with `posts` the published query's result in its sort order and
      `lastmod` the formatted `updatedAt` of each. */
  method BuildSitemap(posts: seq<Post>, lastmod: Post -> string) returns (xml: string)
    ensures xml == Sitemap(posts, lastmod)
  {
    var statics := StaticEntries(StaticPages);
    var articles := ArticleEntries(PublishedPosts(posts), lastmod);
    xml := XmlDeclaration + UrlsetOpen;
    ghost var start := xml;
    xml := xml + Home.Xml();
    assert xml == Render(start, [Home]);
    xml := AppendEntries(xml, statics);
    RenderConcat(start, [Home], statics);
    xml := AppendEntries(xml, articles);
    RenderConcat(start, [Home] + statics, articles);
    xml := xml + UrlsetClose;
  }

  /** The sitemap lists 1 + 5 + n URLs: the homepage first, then the five static pages in
      their fixed order, then one entry per published post, in query order, whose address
      is the site address, a slash and the slug. */
  lemma SitemapEntriesShape(posts: seq<Post>, lastmod: Post -> string)
    ensures var es, pub := SitemapEntries(posts, lastmod), PublishedPosts(posts);
      |es| == 1 + |StaticPages| + |pub| && es[0] == Home && es[0].Loc() == BaseUrl + "/" &&
      (forall i :: 0 <= i < |StaticPages| ==> es[1 + i] == StaticPage(StaticPages[i])) &&
      (forall i :: 0 <= i < |pub| ==>
        es[6 + i] == Article(pub[i].slug, lastmod(pub[i])) && es[6 + i].Loc() == BaseUrl + "/" + pub[i].slug)
  {
    var es, pub := SitemapEntries(posts, lastmod), PublishedPosts(posts);
    assert BaseUrl + "/" + "" == BaseUrl + "/";
    assert forall i :: 0 <= i < |pub| ==> es[6 + i] == ArticleEntries(pub, lastmod)[i];
  }

  /** Every published post has its entry. */
  lemma SitemapListsPublished(posts: seq<Post>, lastmod: Post -> string, p: Post)
    requires p in posts && p.status == Published
    ensures Article(p.slug, lastmod(p)) in SitemapEntries(posts, lastmod)
  {
    FilterKeeps(posts, IsPublished, p);
    var pub := PublishedPosts(posts);
    var i :| 0 <= i < |pub| && pub[i] == p;
    SitemapEntriesShape(posts, lastmod);
    assert SitemapEntries(posts, lastmod)[6 + i] == Article(p.slug, lastmod(p));
  }

  /** Each `<url>` block carries its own address in a `<loc>` element. */
  lemma EntryHasLoc(e: SitemapEntry)
    ensures Contains(e.Xml(), LocXml(e.Loc()))
  {
    ContainsInfix(e.Opening(), LocXml(e.Loc()), e.Closing());
  }

  lemma {:induction false} RenderExtends(acc: string, es: seq<SitemapEntry>)
    ensures StartsWith(Render(acc, es), acc)
    decreases |es|
  {
    if es != [] {
      var next := acc + es[0].Xml();
      RenderExtends(next, es[1..]);
      var r := Render(acc, es);
      assert r[..|next|][..|acc|] == r[..|acc|];
    }
  }

  /** The document starts with the XML declaration and the opening `<urlset>` and ends
      with the closing tag. */
  lemma SitemapFraming(posts: seq<Post>, lastmod: Post -> string)
    ensures StartsWith(Sitemap(posts, lastmod), XmlDeclaration + UrlsetOpen)
    ensures var s := Sitemap(posts, lastmod); |s| >= |UrlsetClose| && s[|s| - |UrlsetClose|..] == UrlsetClose
  {
    var body := Render(XmlDeclaration + UrlsetOpen, SitemapEntries(posts, lastmod));
    RenderExtends(XmlDeclaration + UrlsetOpen, SitemapEntries(posts, lastmod));
    StartsWithConcat(body, XmlDeclaration + UrlsetOpen, UrlsetClose);
    EndsWithSuffix(body, UrlsetClose);
  }

  lemma EndsWithSuffix(s: string, t: string)
    ensures (s + t)[|s + t| - |t|..] == t
  {
  }

  // ---------------------------------------------------------------------------------
  // rss.xml

  /** One `<item>`: the title and the excerpt go into CDATA sections verbatim. */
  datatype RssItem = RssItem(title: string, link: string, guid: string, pubDate: string, description: string)
  {
    /** The template text before the description. */
    function Head(): string
    {
      "\n        <item>\n          <title><![CDATA[" + title + "]]></title>\n          <link>" + link +
      "</link>\n          <guid>" + guid + "</guid>\n          <pubDate>" + pubDate + "</pubDate>\n          "
    }

    function Xml(): string
    {
      Head() + DescriptionXml(description) + ItemClose
    }
  }

  const ItemClose: string := "\n        </item>\n      "

  function DescriptionXml(text: string): string
  {
    "<description><![CDATA[" + text + "]]></description>"
  }

  /** The item for a post, with `utc` the `toUTCString` formatting of its creation time;
      `excerpt || ""` is the excerpt itself, an unset one being "". */
  function ItemOf(p: Post, utc: int -> string): RssItem
  {
    RssItem(p.title, PageUrl(p.slug), PageUrl(p.slug), utc(p.createdAt), p.excerpt)
  }

  /** The query `find({ status: "published" }).sort({ createdAt: -1 }).limit(20)`, with the
      collection given in the sort order. */
  function RssPosts(posts: seq<Post>): (r: seq<Post>)
    ensures |r| <= RssLimit
    ensures |r| <= |PublishedPosts(posts)| && r == PublishedPosts(posts)[..|r|]
  {
    Slice(PublishedPosts(posts), 0, RssLimit)
  }

  /** The channel header after the XML declaration, with `buildDate` the formatted time. */
  function ChannelOpen(buildDate: string): string
  {
    "\n      <rss version=\"2.0\">\n        <channel>\n          <title>CurrentNews365</title>\n" +
    "          <link>" + BaseUrl + "</link>\n" +
    "          <description>Latest breaking news and updates from CurrentNews365</description>\n" +
    "          <language>en-IN</language>\n          <lastBuildDate>" + buildDate + "</lastBuildDate>\n    "
  }

  const ChannelClose: string := "\n        </channel>\n      </rss>\n    "

  /** `acc` followed by the item of each post in turn. */
  function RenderItems(acc: string, posts: seq<Post>, utc: int -> string): string
    decreases |posts|
  {
    if posts == [] then acc else RenderItems(acc + ItemOf(posts[0], utc).Xml(), posts[1..], utc)
  }

  function Rss(posts: seq<Post>, utc: int -> string, buildDate: string): string
  {
    RenderItems(XmlDeclaration + ChannelOpen(buildDate), RssPosts(posts), utc) + ChannelClose
  }

  /** GET /rss.xml. */
  method BuildRss(posts: seq<Post>, utc: int -> string, buildDate: string) returns (rss: string)
    ensures rss == Rss(posts, utc, buildDate)
  {
    var items := RssPosts(posts);
    ghost var goal := RenderItems(XmlDeclaration + ChannelOpen(buildDate), items, utc);
    rss := XmlDeclaration;
    rss := rss + ChannelOpen(buildDate);
    for i := 0 to |items|
      invariant RenderItems(rss, items[i..], utc) == goal
    {
      assert items[i..][0] == items[i] && items[i..][1..] == items[i + 1..];
      rss := rss + ItemOf(items[i], utc).Xml();
    }
    assert items[|items|..] == [];
    rss := rss + ChannelClose;
  }

  /** At most twenty items, each made from a published post, with the link and the guid
      both the post's address; an unset excerpt gives an empty description. */
  lemma RssItemsShape(posts: seq<Post>, utc: int -> string, i: int)
    requires 0 <= i < |RssPosts(posts)|
    ensures |RssPosts(posts)| <= 20
    ensures var p := RssPosts(posts)[i]; var it := ItemOf(p, utc);
      p in posts && p.status == Published &&
      it.link == it.guid == BaseUrl + "/" + p.slug &&
      (p.excerpt == "" ==> it.description == "")
  {
    var p := RssPosts(posts)[i];
    assert p == PublishedPosts(posts)[i];
  }

  /** The feed holds the first twenty published posts, or all of them when there are fewer. */
  lemma RssTakesFirstTwenty(posts: seq<Post>)
    ensures |PublishedPosts(posts)| <= RssLimit ==> RssPosts(posts) == PublishedPosts(posts)
    ensures |PublishedPosts(posts)| > RssLimit ==> |RssPosts(posts)| == RssLimit
  {
  }

  /** An item without an excerpt carries an empty CDATA section as its description. */
  lemma EmptyExcerptItem(p: Post, utc: int -> string)
    requires p.excerpt == ""
    ensures Contains(ItemOf(p, utc).Xml(), DescriptionXml(""))
  {
    var it := ItemOf(p, utc);
    ContainsInfix(it.Head(), DescriptionXml(""), ItemClose);
  }
}
