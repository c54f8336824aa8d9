/** The JavaScript string operations the application relies on, over `seq<char>`.
    Case mapping is modelled for ASCII letters only; the whitespace class is the one
    ECMAScript uses for `trim()` and for `\s` in regular expressions. */
module Text {

  /** ECMAScript WhiteSpace and LineTerminator code points. */
  predicate IsSpace(c: char)
  {
    c == ' ' || c == '\t' || c == '\n' || c == '\r' || c == '\U{B}' || c == '\U{C}' ||
    c == '\U{A0}' || c == '\U{1680}' || ('\U{2000}' <= c <= '\U{200A}') ||
    c == '\U{2028}' || c == '\U{2029}' || c == '\U{202F}' || c == '\U{205F}' ||
    c == '\U{3000}' || c == '\U{FEFF}'
  }

  predicate IsLowerAlnum(c: char)
  {
    ('a' <= c <= 'z') || ('0' <= c <= '9')
  }

  function LowerChar(c: char): (d: char)
    ensures 'A' <= c <= 'Z' ==> 'a' <= d <= 'z' && d as int == c as int + 32
    ensures !('A' <= c <= 'Z') ==> d == c
  {
    if 'A' <= c <= 'Z' then (c as int + 32) as char else c
  }

  /** `s.toLowerCase()` (ASCII letters only). */
  function Lower(s: string): (r: string)
    ensures |r| == |s|
  {
    if s == [] then [] else [LowerChar(s[0])] + Lower(s[1..])
  }

  /** Lowercasing maps each character on its own. */
  lemma {:induction false} LowerAt(s: string)
    ensures forall i :: 0 <= i < |s| ==> Lower(s)[i] == LowerChar(s[i])
  {
    if s != [] {
      LowerAt(s[1..]);
      assert forall i :: 1 <= i < |s| ==> Lower(s)[i] == Lower(s[1..])[i - 1];
    }
  }

  /** A string with no capital letter is its own lowercase form. */
  lemma LowerNoCapitals(s: string)
    requires forall i :: 0 <= i < |s| ==> !('A' <= s[i] <= 'Z')
    ensures Lower(s) == s
  {
    LowerAt(s);
  }

  lemma LowerConcat(a: string, b: string)
    ensures Lower(a + b) == Lower(a) + Lower(b)
  {
    LowerAt(a + b);
    LowerAt(a);
    LowerAt(b);
    assert |Lower(a + b)| == |Lower(a) + Lower(b)|;
    forall i | 0 <= i < |a + b| ensures Lower(a + b)[i] == (Lower(a) + Lower(b))[i] {
      if i < |a| {
        assert (a + b)[i] == a[i];
      } else {
        assert (a + b)[i] == b[i - |a|];
      }
    }
  }

  function TrimStart(s: string): (r: string)
    ensures |r| <= |s| && r == s[|s| - |r|..]
    ensures r == [] || !IsSpace(r[0])
    ensures forall i :: 0 <= i < |s| - |r| ==> IsSpace(s[i])
  {
    if s != [] && IsSpace(s[0]) then TrimStart(s[1..]) else s
  }

  function TrimEnd(s: string): (r: string)
    ensures |r| <= |s| && r == s[..|r|]
    ensures r == [] || !IsSpace(r[|r| - 1])
    ensures forall i :: |r| <= i < |s| ==> IsSpace(s[i])
  {
    if s != [] && IsSpace(s[|s| - 1]) then TrimEnd(s[..|s| - 1]) else s
  }

  /** `s.trim()`: the longest infix with no whitespace at either end. */
  function Trim(s: string): (r: string)
    ensures |r| <= |s|
    ensures r == [] || (!IsSpace(r[0]) && !IsSpace(r[|r| - 1]))
  {
    TrimEnd(TrimStart(s))
  }

  predicate IsTrimmed(s: string)
  {
    s == [] || (!IsSpace(s[0]) && !IsSpace(s[|s| - 1]))
  }

  /** Trimming leaves a string that is already trimmed as it is. */
  lemma TrimOfTrimmed(s: string)
    requires IsTrimmed(s)
    ensures Trim(s) == s
  {
  }

  /** A leading space makes no difference to `trim()`. */
  lemma TrimLeadingSpace(c: char, s: string)
    requires IsSpace(c)
    ensures Trim([c] + s) == Trim(s)
  {
    assert ([c] + s)[1..] == s;
  }

  /** The characters a slug keeps: lower-case ASCII letters, digits and '-'. */
  predicate IsSlugChar(c: char)
  {
    IsLowerAlnum(c) || c == '-'
  }

  /** `s.replace(/\s+/g, "-")`: every maximal run of whitespace becomes one '-'. */
  function DashSpaceRuns(s: string): (r: string)
    ensures |r| <= |s|
  {
    if s == [] then []
    else if IsSpace(s[0]) then ['-'] + DashSpaceRuns(TrimStart(s[1..]))
    else [s[0]] + DashSpaceRuns(s[1..])
  }

  /** No whitespace survives the replacement. */
  lemma {:induction false} DashSpaceRunsHasNoSpace(s: string)
    ensures forall i :: 0 <= i < |DashSpaceRuns(s)| ==> !IsSpace(DashSpaceRuns(s)[i])
  {
    if s != [] {
      var t := if IsSpace(s[0]) then TrimStart(s[1..]) else s[1..];
      DashSpaceRunsHasNoSpace(t);
      assert DashSpaceRuns(s) == [if IsSpace(s[0]) then '-' else s[0]] + DashSpaceRuns(t);
    }
  }

  lemma {:induction false} DashSpaceRunsNoSpace(s: string)
    requires forall i :: 0 <= i < |s| ==> !IsSpace(s[i])
    ensures DashSpaceRuns(s) == s
  {
    if s != [] {
      DashSpaceRunsNoSpace(s[1..]);
    }
  }

  lemma SlugCharNotSpace(c: char)
    requires IsSlugChar(c)
    ensures !IsSpace(c)
  {
  }

  /** `s.startsWith(p)`. */
  predicate StartsWith(s: string, p: string)
  {
    |p| <= |s| && s[..|p|] == p
  }

  /** `s.includes(p)`: `p` occurs in `s` at some offset. */
  predicate Contains(s: string, p: string)
  {
    StartsWith(s, p) || (s != [] && Contains(s[1..], p))
  }

  /** `p` occurs in `s` starting at offset `k`. */
  predicate OccursAt(s: string, p: string, k: int)
  {
    0 <= k && k + |p| <= |s| && s[k..k + |p|] == p
  }

  /** Contains agrees with the direct definition of a substring occurrence. */
  lemma {:induction false} ContainsAt(s: string, p: string)
    ensures Contains(s, p) <==> exists k :: OccursAt(s, p, k)
  {
    if StartsWith(s, p) {
      assert OccursAt(s, p, 0);
    } else if s == [] {
      assert forall k :: !OccursAt(s, p, k);
    } else {
      ContainsAt(s[1..], p);
      if Contains(s, p) {
        var k :| OccursAt(s[1..], p, k);
        assert s[1..][k..k + |p|] == s[k + 1..k + 1 + |p|];
        assert OccursAt(s, p, k + 1);
      } else {
        forall k | OccursAt(s, p, k) ensures false {
          if k > 0 {
            assert s[1..][k - 1..k - 1 + |p|] == s[k..k + |p|];
            assert OccursAt(s[1..], p, k - 1);
          }
        }
      }
    }
  }

  /** A string occurs in any text that has it as an infix. */
  lemma ContainsInfix(a: string, b: string, c: string)
    ensures Contains(a + b + c, b)
  {
    var s := a + b + c;
    assert s[|a|..|a| + |b|] == b;
    assert OccursAt(s, b, |a|);
    ContainsAt(s, b);
  }

  /** A prefix of a concatenation's left part is a prefix of the whole. */
  lemma StartsWithConcat(s: string, p: string, t: string)
    requires StartsWith(s, p)
    ensures StartsWith(s + t, p)
  {
    assert (s + t)[..|p|] == s[..|p|];
  }

  /** `s.split(sep)` for a one-character separator: never empty, and "" gives [""]. */
  function Split(s: string, sep: char): (r: seq<string>)
    ensures |r| >= 1
    ensures forall i :: 0 <= i < |r| ==> sep !in r[i]
  {
    if s == [] then [[]]
    else
      var rest := Split(s[1..], sep);
      if s[0] == sep then [[]] + rest else [[s[0]] + rest[0]] + rest[1..]
  }

  /** `xs.join(sep)`. */
  function Join(xs: seq<string>, sep: string): (r: string)
  {
    if xs == [] then [] else if |xs| == 1 then xs[0] else xs[0] + sep + Join(xs[1..], sep)
  }

  /** Splitting at the first separator: the prefix before it is the first piece. */
  lemma {:induction false} SplitAfterPiece(a: string, sep: char, b: string)
    requires sep !in a
    ensures Split(a + [sep] + b, sep) == [a] + Split(b, sep)
  {
    if a == [] {
      assert a + [sep] + b == [sep] + b;
      assert ([sep] + b)[1..] == b;
    } else {
      assert (a + [sep] + b)[1..] == a[1..] + [sep] + b;
      SplitAfterPiece(a[1..], sep, b);
      assert [a[0]] + a[1..] == a;
    }
  }

  lemma SplitWithoutSeparator(a: string, sep: char)
    requires sep !in a
    ensures Split(a, sep) == [a]
  {
    if a != [] {
      SplitWithoutSeparator(a[1..], sep);
      assert [a[0]] + a[1..] == a;
    }
  }

  function TrimAll(xs: seq<string>): (r: seq<string>)
    ensures |r| == |xs|
  {
    if xs == [] then [] else [Trim(xs[0])] + TrimAll(xs[1..])
  }

  /** The split pieces of a string that starts with a space trim to the same pieces as
      the string without it. */
  lemma TrimAllLeadingSpace(s: string)
    ensures TrimAll(Split([' '] + s, ',')) == TrimAll(Split(s, ','))
  {
    assert ([' '] + s)[1..] == s;
    TrimLeadingSpace(' ', Split(s, ',')[0]);
  }

  /** `text.split(",").map(t => t.trim())` after joining with ", " gives the list back,
      for pieces that hold no comma and no whitespace at their edges. */
  lemma {:induction false} SplitTrimJoin(xs: seq<string>)
    requires xs != []
    requires forall i :: 0 <= i < |xs| ==> ',' !in xs[i] && IsTrimmed(xs[i])
    ensures TrimAll(Split(Join(xs, ", "), ',')) == xs
  {
    if |xs| == 1 {
      SplitWithoutSeparator(xs[0], ',');
      TrimOfTrimmed(xs[0]);
    } else {
      assert forall i :: 0 <= i < |xs[1..]| ==> xs[1..][i] == xs[i + 1];
      SplitTrimJoin(xs[1..]);
      SplitTrimJoinStep(xs);
    }
  }

  /** The inductive step of SplitTrimJoin: one more piece in front. */
  lemma SplitTrimJoinStep(xs: seq<string>)
    requires |xs| >= 2 && ',' !in xs[0] && IsTrimmed(xs[0])
    requires TrimAll(Split(Join(xs[1..], ", "), ',')) == xs[1..]
    ensures TrimAll(Split(Join(xs, ", "), ',')) == xs
  {
    assert xs == [xs[0]] + xs[1..];
    SplitJoinCons(xs);
    TrimAllSpacedTail(xs[0], Join(xs[1..], ", "), xs[1..]);
  }

  lemma SplitJoinCons(xs: seq<string>)
    requires |xs| >= 2 && ',' !in xs[0]
    ensures Split(Join(xs, ", "), ',') == [xs[0]] + Split([' '] + Join(xs[1..], ", "), ',')
  {
    var tail := Join(xs[1..], ", ");
    JoinCons(xs, tail);
    SplitAfterPiece(xs[0], ',', [' '] + tail);
  }

  lemma TrimAllSpacedTail(x: string, tail: string, rest: seq<string>)
    requires IsTrimmed(x)
    requires TrimAll(Split(tail, ',')) == rest
    ensures TrimAll([x] + Split([' '] + tail, ',')) == [x] + rest
  {
    TrimOfTrimmed(x);
    TrimAllCons(x, Split([' '] + tail, ','));
    TrimAllLeadingSpace(tail);
  }

  lemma JoinCons(xs: seq<string>, tail: string)
    requires |xs| >= 2 && tail == Join(xs[1..], ", ")
    ensures Join(xs, ", ") == xs[0] + [','] + ([' '] + tail)
  {
    var sep: string := ", ";
    assert sep == [','] + [' '];
    assert Join(xs, sep) == xs[0] + sep + tail;
    assert xs[0] + ([','] + [' ']) + tail == xs[0] + [','] + ([' '] + tail);
  }

  lemma TrimAllCons(x: string, xs: seq<string>)
    ensures TrimAll([x] + xs) == [Trim(x)] + TrimAll(xs)
  {
    assert ([x] + xs)[1..] == xs;
  }

  function DigitChar(d: nat): (c: char)
    requires d < 10
    ensures '0' <= c <= '9'
  {
    ('0' as int + d) as char
  }

  /** `String(n)` for a natural number: its decimal digits, most significant first. */
  function NatToString(n: nat): (r: string)
    ensures r != []
    ensures forall i :: 0 <= i < |r| ==> '0' <= r[i] <= '9'
  {
    if n < 10 then [DigitChar(n)] else NatToString(n / 10) + [DigitChar(n % 10)]
  }

  /** The value of a string of decimal digits. */
  function ParseDigits(s: string): nat
    requires forall i :: 0 <= i < |s| ==> '0' <= s[i] <= '9'
  {
    if s == [] then 0 else 10 * ParseDigits(s[..|s| - 1]) + (s[|s| - 1] as int - '0' as int)
  }

  /** Reading the decimal digits back gives the number. */
  lemma {:induction false} ParseNatToString(n: nat)
    ensures ParseDigits(NatToString(n)) == n
  {
    if n >= 10 {
      var r := NatToString(n);
      assert r[..|r| - 1] == NatToString(n / 10);
      ParseNatToString(n / 10);
    }
  }

  /** Distinct numbers have distinct decimal strings. */
  lemma NatToStringInjective(m: nat, n: nat)
    requires NatToString(m) == NatToString(n)
    ensures m == n
  {
    ParseNatToString(m);
    ParseNatToString(n);
  }
}
