/** The post document of backend/models/Post.js: its status enum, its defaults and the
    pre-save hook that derives an excerpt from the HTML content. */
module PostModel {
  import opened Common
  import opened Text

  /** The `status` enum; anything else fails schema validation. */
  datatype Status = Draft | Scheduled | Published
  {
    function Name(): string
    {
      match this
      case Draft => "draft"
      case Scheduled => "scheduled"
      case Published => "published"
    }
  }

  /** Schema validation of a `status` string. */
  function ParseStatus(s: string): (r: Option<Status>)
    ensures r.Some? ==> r.value.Name() == s
    ensures r.None? ==> forall st: Status :: st.Name() != s
  {
    if s == "draft" then Some(Draft)
    else if s == "scheduled" then Some(Scheduled)
    else if s == "published" then Some(Published)
    else None
  }

  /** Every status parses back from its name. */
  lemma ParseName(st: Status)
    ensures ParseStatus(st.Name()) == Some(st)
  {
  }

  /** A stored post. Unset optional strings are "", `scheduledFor` is `null` as `None`,
      and `createdAt` is the timestamp Mongoose adds. */
  datatype Post = Post(
    id: nat,
    title: string,
    slug: string,
    excerpt: string,
    content: string,
    category: string,
    subCategory: string,
    source: string,
    tags: seq<string>,
    keywords: seq<string>,
    relatedTickers: seq<string>,
    referenceLinks: seq<string>,
    status: Status,
    scheduledFor: Option<int>,
    views: nat,
    metaTitle: string,
    metaDescription: string,
    createdAt: int)

  const ExcerptLength: nat := 180
  const Ellipsis: string := "..."

  /** The text after the first '>' of `s`, or nothing when there is none. */
  function SkipTag(s: string): (r: string)
    ensures s != [] ==> |r| < |s|
    ensures r == [] || (|r| < |s| && r == s[|s| - |r|..] && s[|s| - |r| - 1] == '>')
  {
    if s == [] then []
    else if s[0] == '>' then s[1..]
    else SkipTag(s[1..])
  }

  /** `content.replace(/<[^>]*>?/gm, "")`: every '<' is removed together with what follows
      it up to and including the next '>', or up to the end when no '>' follows. */
  function StripTags(s: string): (r: string)
    ensures |r| <= |s|
    ensures '<' !in r
    decreases |s|
  {
    if s == [] then []
    else if s[0] == '<' then StripTags(SkipTag(s[1..]))
    else [s[0]] + StripTags(s[1..])
  }

  /** Text without a '<' holds no tag and comes through unchanged. */
  lemma {:induction false} StripTagsPlainText(s: string)
    requires '<' !in s
    ensures StripTags(s) == s
  {
    if s != [] {
      assert '<' !in s[1..];
      StripTagsPlainText(s[1..]);
    }
  }

  /** Stripping twice is stripping once. */
  lemma StripTagsIdempotent(s: string)
    ensures StripTags(StripTags(s)) == StripTags(s)
  {
    StripTagsPlainText(StripTags(s));
  }

  /** The excerpt generated from `content`: the first 180 characters of the tag-stripped
      text, "..." appended when that text is longer, then trimmed by the schema setter. */
  function GeneratedExcerpt(content: string): (r: string)
    ensures |r| <= ExcerptLength + |Ellipsis|
  {
    var plain := StripTags(content);
    var cut := if |plain| <= ExcerptLength then plain else plain[..ExcerptLength];
    Trim(cut + (if |plain| > ExcerptLength then Ellipsis else ""))
  }

  lemma {:induction false} TrimStartConcat(a: string, b: string)
    ensures TrimStart(a + b) == if TrimStart(a) == [] then TrimStart(b) else TrimStart(a) + b
  {
    if a != [] {
      assert (a + b)[0] == a[0];
      if IsSpace(a[0]) {
        assert (a + b)[1..] == a[1..] + b;
        TrimStartConcat(a[1..], b);
      }
    } else {
      assert a + b == b;
    }
  }

  /** Trimming text followed by "..." only removes its leading whitespace. */
  lemma TrimBeforeEllipsis(a: string)
    ensures Trim(a + Ellipsis) == TrimStart(a) + Ellipsis
  {
    TrimStartBeforeEllipsis(a);
    TrimEndAfterDot(TrimStart(a) + Ellipsis);
  }

  lemma TrimStartBeforeEllipsis(a: string)
    ensures TrimStart(a + Ellipsis) == TrimStart(a) + Ellipsis
  {
    TrimStartConcat(a, Ellipsis);
    assert !IsSpace(Ellipsis[0]);
  }

  lemma TrimEndAfterDot(t: string)
    requires t != [] && t[|t| - 1] == '.'
    ensures TrimEnd(t) == t
  {
  }

  /** The generated excerpt of a long text is its first 180 characters with leading
      whitespace removed, followed by "..."; that of a short text is the trimmed text. */
  lemma GeneratedExcerptShape(content: string)
    ensures var plain := StripTags(content);
      (|plain| > ExcerptLength ==> GeneratedExcerpt(content) == TrimStart(plain[..ExcerptLength]) + Ellipsis) &&
      (|plain| <= ExcerptLength ==> GeneratedExcerpt(content) == Trim(plain))
  {
    var plain := StripTags(content);
    if |plain| > ExcerptLength {
      TrimBeforeEllipsis(plain[..ExcerptLength]);
    } else {
      assert plain + "" == plain;
    }
  }

  /** The pre-save hook: an excerpt is generated only when none is set and there is content. */
  function PreSave(p: Post): (r: Post)
    ensures r.(excerpt := p.excerpt) == p
    ensures p.excerpt != "" ==> r == p
    ensures p.excerpt == "" && p.content != "" ==> r.excerpt == GeneratedExcerpt(p.content)
    ensures p.content == "" ==> r == p
    ensures r != p ==> p.excerpt == "" && p.content != ""
  {
    if p.excerpt == "" && p.content != "" then p.(excerpt := GeneratedExcerpt(p.content)) else p
  }

  /** Saving again changes nothing more: the hook depends only on the content. */
  lemma PreSaveIdempotent(p: Post)
    ensures PreSave(PreSave(p)) == PreSave(p)
  {
  }
}
