/** The logic of the admin editor page, frontend/src/pages/Editor.jsx: the client-side
    `slugify`, the title-to-slug sync, and the comma-separated list fields that are joined
    when a post is loaded and split again when it is saved. */
module Editor {
  import opened Common
  import opened Text
  import opened PostModel
  import PostRoutes

  // ---------------------------------------------------------------------------------
  // slugify

  /** The characters `/[^a-z0-9\s-]/g` leaves in place. */
  predicate IsSlugTextChar(c: char)
  {
    IsLowerAlnum(c) || IsSpace(c) || c == '-'
  }

  /** `s.replace(/-+/g, "-")`: every run of hyphens becomes a single one. */
  function CollapseHyphens(s: string): (r: string)
    ensures |r| <= |s|
    ensures s != [] ==> r != [] && r[0] == s[0]
    ensures forall i :: 0 <= i < |r| ==> r[i] in s
    ensures forall i :: 0 <= i < |r| - 1 ==> !(r[i] == '-' && r[i + 1] == '-')
  {
    if s == [] then []
    else if |s| >= 2 && s[0] == '-' && s[1] == '-' then CollapseHyphens(s[1..])
    else [s[0]] + CollapseHyphens(s[1..])
  }

  /** `slugify(text)`: lower-case, trim, drop every character outside letters, digits,
      whitespace and '-', turn whitespace runs into '-', then collapse hyphen runs. */
  function Slugify(text: string): string
  {
    CollapseHyphens(DashSpaceRuns(Filter(Trim(Lower(text)), IsSlugTextChar)))
  }

  /** Whitespace runs turn into '-' and every other character is one of the input's. */
  lemma {:induction false} DashSpaceRunsChars(s: string)
    ensures forall i :: 0 <= i < |DashSpaceRuns(s)| ==> DashSpaceRuns(s)[i] == '-' || DashSpaceRuns(s)[i] in s
  {
    if s != [] {
      if IsSpace(s[0]) {
        var t := TrimStart(s[1..]);
        DashSpaceRunsChars(t);
        assert forall c :: c in t ==> c in s;
      } else {
        DashSpaceRunsChars(s[1..]);
      }
    }
  }

  /** A slug holds only lower-case letters, digits and '-', and never two hyphens in a row. */
  lemma SlugifyShape(text: string)
    ensures forall i :: 0 <= i < |Slugify(text)| ==> IsSlugChar(Slugify(text)[i])
    ensures forall i :: 0 <= i < |Slugify(text)| - 1 ==> !(Slugify(text)[i] == '-' && Slugify(text)[i + 1] == '-')
  {
    var kept := Filter(Trim(Lower(text)), IsSlugTextChar);
    var dashed := DashSpaceRuns(kept);
    DashSpaceRunsChars(kept);
    DashSpaceRunsHasNoSpace(kept);
    assert forall i :: 0 <= i < |dashed| ==> IsSlugChar(dashed[i]) by {
      forall i | 0 <= i < |dashed|
        ensures IsSlugChar(dashed[i])
      {
        assert !IsSpace(dashed[i]);
        if dashed[i] != '-' {
          assert dashed[i] in kept;
          assert IsSlugTextChar(dashed[i]);
        }
      }
    }
  }

  /** A string with no hyphen run is left alone by the collapse. */
  lemma {:induction false} CollapseHyphensNoRun(s: string)
    requires forall i :: 0 <= i < |s| - 1 ==> !(s[i] == '-' && s[i + 1] == '-')
    ensures CollapseHyphens(s) == s
  {
    if s != [] {
      CollapseHyphensNoRun(s[1..]);
    }
  }

  /** Slug text is its own slug: lower-casing, trimming, filtering and both replacements
      change nothing in it. */
  lemma SlugTextFixpoint(s: string)
    requires forall i :: 0 <= i < |s| ==> IsSlugChar(s[i])
    requires forall i :: 0 <= i < |s| - 1 ==> !(s[i] == '-' && s[i + 1] == '-')
    ensures Slugify(s) == s
  {
    assert Lower(s) == s by {
      LowerNoCapitals(s);
    }
    assert Trim(s) == s by {
      if s != [] {
        SlugCharNotSpace(s[0]);
        SlugCharNotSpace(s[|s| - 1]);
      }
      TrimOfTrimmed(s);
    }
    assert Filter(s, IsSlugTextChar) == s by {
      FilterAll(s, IsSlugTextChar);
    }
    assert DashSpaceRuns(s) == s by {
      forall i | 0 <= i < |s|
        ensures !IsSpace(s[i])
      {
        SlugCharNotSpace(s[i]);
      }
      DashSpaceRunsNoSpace(s);
    }
    CollapseHyphensNoRun(s);
  }

  /** `slugify` is idempotent. */
  lemma SlugifyIdempotent(text: string)
    ensures Slugify(Slugify(text)) == Slugify(text)
  {
    SlugifyShape(text);
    SlugTextFixpoint(Slugify(text));
  }

  /** The server's own normalisation keeps a slug the editor produced, so a free editor
      slug is stored exactly as shown in the form. */
  lemma ServerKeepsEditorSlug(text: string)
    ensures PostRoutes.BaseSlug(Slugify(text)) == Slugify(text)
  {
    SlugifyShape(text);
    PostRoutes.BaseSlugFixpoint(Slugify(text));
  }

  // ---------------------------------------------------------------------------------
  // The form.

  /** The editor fields the logic touches; the list fields are edited as comma-separated
      text. */
  datatype Form = Form(title: string, slug: string, tags: string, keywords: string, relatedTickers: string, referenceLinks: string)

  /** What `handleSave` sends. */
  datatype Payload = Payload(title: string, slug: string, tags: seq<string>, keywords: seq<string>,
                             relatedTickers: seq<string>, referenceLinks: seq<string>)

  const ListSeparator: string := ", "

  /** Loading a stored post: each list is shown joined with ", ". */
  function LoadForm(p: Post): Form
  {
    Form(p.title, p.slug, Join(p.tags, ListSeparator), Join(p.keywords, ListSeparator),
         Join(p.relatedTickers, ListSeparator), Join(p.referenceLinks, ListSeparator))
  }

  /** The title input's change handler: the slug follows the title. */
  function EditTitle(f: Form, title: string): (r: Form)
    ensures r.title == title && r.(title := f.title, slug := f.slug) == f
    ensures forall i :: 0 <= i < |r.slug| ==> IsSlugChar(r.slug[i])
    ensures SavePayload(r).slug == Slugify(title)
  {
    SlugifyShape(title);
    f.(title := title, slug := Slugify(title))
  }

  /** `text ? text.split(",").map(t => t.trim()) : []`. */
  function SplitList(text: string): (r: seq<string>)
    ensures text == "" <==> r == []
    ensures forall i :: 0 <= i < |r| ==> ',' !in r[i] && IsTrimmed(r[i])
  {
    if text == "" then [] else TrimAllSplitPieces(Split(text, ','), ','); TrimAll(Split(text, ','))
  }

  /** Trimming pieces that hold no separator leaves pieces that hold none either. */
  lemma {:induction false} TrimAllSplitPieces(xs: seq<string>, sep: char)
    requires forall i :: 0 <= i < |xs| ==> sep !in xs[i]
    ensures forall i :: 0 <= i < |TrimAll(xs)| ==> sep !in TrimAll(xs)[i] && IsTrimmed(TrimAll(xs)[i])
  {
    if xs != [] {
      TrimAllSplitPieces(xs[1..], sep);
      TrimAllCons(xs[0], xs[1..]);
      assert xs == [xs[0]] + xs[1..];
      TrimInfix(xs[0]);
    }
  }

  lemma TrimInfix(s: string)
    ensures forall c :: c in Trim(s) ==> c in s
    ensures IsTrimmed(Trim(s))
  {
    var t := TrimStart(s);
    assert forall c :: c in t ==> c in s;
    assert forall c :: c in TrimEnd(t) ==> c in t;
  }

  /** The payload of `handleSave`; an empty slug is replaced by the title's slug. */
  function SavePayload(f: Form): (r: Payload)
    ensures r.title == f.title
    ensures f.slug != "" ==> r.slug == f.slug
    ensures f.slug == "" ==> r.slug == Slugify(f.title)
    ensures r.tags == SplitList(f.tags) && r.keywords == SplitList(f.keywords)
    ensures r.relatedTickers == SplitList(f.relatedTickers) && r.referenceLinks == SplitList(f.referenceLinks)
  {
    Payload(f.title, if f.slug != "" then f.slug else Slugify(f.title), SplitList(f.tags), SplitList(f.keywords),
            SplitList(f.relatedTickers), SplitList(f.referenceLinks))
  }

  /** A list whose pieces hold no comma and no edge whitespace survives being shown and
      saved again, except the one-element list [""], which joins to "" and comes back as []. */
  lemma SplitJoinRoundTrip(xs: seq<string>)
    requires forall i :: 0 <= i < |xs| ==> ',' !in xs[i] && IsTrimmed(xs[i])
    ensures xs != [""] ==> SplitList(Join(xs, ListSeparator)) == xs
    ensures SplitList(Join([""], ListSeparator)) == []
  {
    if xs != [] && xs != [""] {
      if |xs| >= 2 {
        assert Join(xs, ListSeparator) == xs[0] + ListSeparator + Join(xs[1..], ListSeparator);
      }
      SplitTrimJoin(xs);
    }
  }

  /** Loading a post and saving it straight away sends its lists back unchanged, when no
      element holds a comma or edge whitespace and none is the list [""]. */
  lemma LoadSaveKeepsLists(p: Post)
    requires forall i :: 0 <= i < |p.tags| ==> ',' !in p.tags[i] && IsTrimmed(p.tags[i])
    requires forall i :: 0 <= i < |p.keywords| ==> ',' !in p.keywords[i] && IsTrimmed(p.keywords[i])
    requires p.tags != [""] && p.keywords != [""]
    ensures var r := SavePayload(LoadForm(p)); r.tags == p.tags && r.keywords == p.keywords
  {
    SplitJoinRoundTrip(p.tags);
    SplitJoinRoundTrip(p.keywords);
  }
}
