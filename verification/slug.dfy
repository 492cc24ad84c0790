// HeaderNav's `slugifyTitle`: combining marks removed, lower-case, trim, `&` spelled out as "and", every run of
// characters outside [a-z0-9] turned into one dash, dashes stripped from both ends.
module Slug {
  import opened Common
  import opened Text

  predicate IsAlnum(c: char) {
    'a' <= c <= 'z' || '0' <= c <= '9'
  }

  predicate IsSlugChar(c: char) {
    IsAlnum(c) || c == '-'
  }

  /** Positions `i` and `i + 1` both hold a dash. */
  predicate DoubleDashAt(s: string, i: int)
    requires 0 <= i < |s| - 1
  {
    s[i] == '-' && s[i + 1] == '-'
  }

  /** Only [a-z0-9] and dashes, never two dashes in a row. */
  predicate DashSeparated(s: string) {
    (forall i :: 0 <= i < |s| ==> IsSlugChar(s[i]))
    && (forall i :: 0 <= i < |s| - 1 ==> !DoubleDashAt(s, i))
  }

  /** The shape of every slug: dash-separated runs of [a-z0-9], no dash at either end. */
  predicate IsSlug(s: string) {
    DashSeparated(s) && (s == [] || (s[0] != '-' && s[|s| - 1] != '-'))
  }

  /** Every slice of a dash-separated string is dash-separated. */
  lemma DashSeparatedSlice(s: string, lo: int, hi: int)
    requires DashSeparated(s) && 0 <= lo <= hi <= |s|
    ensures DashSeparated(s[lo..hi])
  {
    var t := s[lo..hi];
    forall i | 0 <= i < |t| ensures IsSlugChar(t[i]) {
      assert t[i] == s[lo + i];
    }
    forall i | 0 <= i < |t| - 1 ensures !DoubleDashAt(t, i) {
      assert t[i] == s[lo + i] && t[i + 1] == s[lo + i + 1];
      assert !DoubleDashAt(s, lo + i);
    }
  }

  /** A slug character may go in front unless it would make two dashes in a row. */
  lemma DashSeparatedCons(c: char, r: string)
    requires IsSlugChar(c) && DashSeparated(r)
    requires c == '-' ==> r == [] || r[0] != '-'
    ensures DashSeparated([c] + r)
  {
    var s := [c] + r;
    forall i | 0 <= i < |s| - 1 ensures !DoubleDashAt(s, i) {
      if i > 0 {
        assert s[i] == r[i - 1] && s[i + 1] == r[i];
        assert !DoubleDashAt(r, i - 1);
      }
    }
  }

  /** `replace(/&/g, "and")`. */
  function ReplaceAmp(s: string): (r: string)
    ensures '&' !in r
  {
    if s == [] then []
    else (if s[0] == '&' then "and" else [s[0]]) + ReplaceAmp(s[1..])
  }

  /** The input with its leading run of characters outside [a-z0-9] removed. */
  function SkipRun(s: string): (r: string)
    ensures |r| <= |s| && r == s[|s| - |r|..]
    ensures r == [] || IsAlnum(r[0])
    ensures s != [] && !IsAlnum(s[0]) ==> |r| < |s|
  {
    if s != [] && !IsAlnum(s[0]) then SkipRun(s[1..]) else s
  }

  /** `replace(/[^a-z0-9]+/g, "-")`: each maximal run outside [a-z0-9] becomes one dash. */
  function Collapse(s: string): (r: string)
    ensures r == [] <==> s == []
    ensures r != [] ==> (r[0] == '-' <==> !IsAlnum(s[0]))
    decreases |s|
  {
    if s == [] then []
    else if IsAlnum(s[0]) then [s[0]] + Collapse(s[1..])
    else "-" + Collapse(SkipRun(s))
  }

  /** What `Collapse` produces is dash-separated: a run never leaves two dashes in a row. */
  lemma {:induction false} CollapseIsDashSeparated(s: string)
    ensures DashSeparated(Collapse(s))
    decreases |s|
  {
    if s != [] {
      if IsAlnum(s[0]) {
        CollapseIsDashSeparated(s[1..]);
        DashSeparatedCons(s[0], Collapse(s[1..]));
      } else {
        CollapseIsDashSeparated(SkipRun(s));
        DashSeparatedCons('-', Collapse(SkipRun(s)));
      }
    }
  }

  function DropLeadingDashes(s: string): (r: string)
    ensures |r| <= |s| && r == s[|s| - |r|..]
    ensures r == [] || r[0] != '-'
  {
    if s != [] && s[0] == '-' then DropLeadingDashes(s[1..]) else s
  }

  function DropTrailingDashes(s: string): (r: string)
    ensures |r| <= |s| && r == s[..|r|]
    ensures r == [] || r[|r| - 1] != '-'
  {
    if s != [] && s[|s| - 1] == '-' then DropTrailingDashes(s[..|s| - 1]) else s
  }

  /** `replace(/^-+|-+$/g, "")`. */
  function StripDashes(s: string): (r: string)
    requires DashSeparated(s)
    ensures IsSlug(r)
  {
    var t := DropLeadingDashes(s);
    DashSeparatedSlice(s, |s| - |t|, |s|);
    assert t == s[|s| - |t|..|s|];
    var r := DropTrailingDashes(t);
    DashSeparatedSlice(t, 0, |r|);
    assert r == t[0..|r|];
    r
  }

  /** A combining diacritical mark, U+0300 to U+036F. */
  predicate IsMark(c: char) {
    '\U{0300}' <= c <= '\U{036F}'
  }

  /** `replace(/[\u0300-\u036f]/g, "")`: every combining mark removed, the rest kept in order. */
  function DropMarks(s: string): (r: string)
    ensures |r| <= |s|
    ensures forall i :: 0 <= i < |r| ==> !IsMark(r[i])
  {
    if s == [] then [] else (if IsMark(s[0]) then [] else [s[0]]) + DropMarks(s[1..])
  }

  /** A text without combining marks is left as it is. */
  lemma {:induction false} DropMarksOfUnmarked(s: string)
    requires forall i :: 0 <= i < |s| ==> !IsMark(s[i])
    ensures DropMarks(s) == s
  {
    if s != [] {
      DropMarksOfUnmarked(s[1..]);
    }
  }

  /**
   * `slugifyTitle`: combining marks removed, the title lower-cased, trimmed, with `&`
   * spelled out, runs of other characters turned into single dashes and dashes stripped
   * from both ends. Whatever the title, the result has the shape of a slug.
   */
  function SlugifyTitle(title: string): (r: string)
    ensures IsSlug(r)
  {
    var t := Trim(Lower(DropMarks(title)));
    CollapseIsDashSeparated(ReplaceAmp(t));
    StripDashes(Collapse(ReplaceAmp(t)))
  }

  lemma LowerOfSlug(s: string)
    requires IsSlug(s)
    ensures Lower(s) == s
  {
    forall i | 0 <= i < |s|
      ensures Lower(s)[i] == s[i]
    {
      assert IsSlugChar(s[i]);
    }
  }

  lemma {:induction false} ReplaceAmpOfSlug(s: string)
    requires forall i :: 0 <= i < |s| ==> IsSlugChar(s[i])
    ensures ReplaceAmp(s) == s
  {
    if s != [] {
      ReplaceAmpOfSlug(s[1..]);
      assert [s[0]] + s[1..] == s;
    }
  }

  lemma {:induction false} CollapseOfDashSeparated(s: string)
    requires DashSeparated(s)
    ensures Collapse(s) == s
    decreases |s|
  {
    if s != [] {
      DashSeparatedSlice(s, 1, |s|);
      assert s[1..] == s[1..|s|];
      CollapseOfDashSeparated(s[1..]);
      assert [s[0]] + s[1..] == s;
      if !IsAlnum(s[0]) {
        if |s| > 1 {
          assert !DoubleDashAt(s, 0);
        }
        assert SkipRun(s) == s[1..];
      }
    }
  }

  /** A slug character is not white space. */
  lemma SlugCharNotSpace(c: char)
    requires IsSlugChar(c)
    ensures !IsSpace(c)
  {
  }

  /** Slugifying a slug changes nothing. */
  lemma SlugifyOfSlug(s: string)
    requires IsSlug(s)
    ensures SlugifyTitle(s) == s
  {
    assert Trim(Lower(DropMarks(s))) == s by {
      assert DropMarks(s) == s by {
        forall i | 0 <= i < |s|
          ensures !IsMark(s[i])
        {
          assert IsSlugChar(s[i]);
        }
        DropMarksOfUnmarked(s);
      }
      LowerOfSlug(s);
      if s != [] {
        SlugCharNotSpace(s[0]);
        SlugCharNotSpace(s[|s| - 1]);
      }
      TrimOfTrimmed(s);
    }
    ReplaceAmpOfSlug(s);
    CollapseOfDashSeparated(s);
    assert Collapse(ReplaceAmp(s)) == s;
    assert DropLeadingDashes(s) == s;
    assert DropTrailingDashes(s) == s;
  }

  /** `slugifyTitle` is idempotent. */
  lemma SlugifyIdempotent(title: string)
    ensures SlugifyTitle(SlugifyTitle(title)) == SlugifyTitle(title)
  {
    SlugifyOfSlug(SlugifyTitle(title));
  }

  /** A letter or digit in front passes through `Collapse`. */
  lemma CollapseConsAlnum(c: char, r: string)
    requires IsAlnum(c)
    ensures Collapse([c] + r) == [c] + Collapse(r)
  {
    assert ([c] + r)[1..] == r;
  }

  /** So does a single dash in front of a letter or digit. */
  lemma CollapseConsDash(r: string)
    requires r != [] && IsAlnum(r[0])
    ensures Collapse("-" + r) == "-" + Collapse(r)
  {
    assert ("-" + r)[1..] == r;
    assert SkipRun("-" + r) == r;
  }

  /** A first character that `Collapse` keeps. */
  lemma CollapseCons(c: char, u: string)
    requires IsAlnum(c) || (c == '-' && u != [] && IsAlnum(u[0]))
    ensures Collapse([c] + u) == [c] + Collapse(u)
  {
    if IsAlnum(c) {
      CollapseConsAlnum(c, u);
    } else {
      CollapseConsDash(u);
    }
  }

  /** One step of `CollapseSlugPrefix`: a first character that `Collapse` keeps. */
  lemma CollapseStep(c: char, x: string, t: string, cx: string)
    requires IsAlnum(c) || (c == '-' && x != [] && IsAlnum(x[0]))
    requires cx == Collapse(t) && Collapse(x + t) == x + cx
    ensures Collapse([c] + x + t) == [c] + x + cx
  {
    assert [c] + x + t == [c] + (x + t) by {
      AppendAssoc([c], x, t);
    }
    assert Collapse([c] + (x + t)) == [c] + Collapse(x + t) by {
      if !IsAlnum(c) {
        assert (x + t)[0] == x[0];
      }
      CollapseCons(c, x + t);
    }
    assert [c] + (x + cx) == [c] + x + cx by {
      AppendAssoc([c], x, cx);
    }
  }

  /** A dash-separated prefix that does not end in a dash passes through `Collapse` unchanged. */
  lemma {:induction false} CollapseSlugPrefix(a: string, t: string)
    requires DashSeparated(a)
    requires a == [] || a[|a| - 1] != '-'
    ensures Collapse(a + t) == a + Collapse(t)
    decreases |a|
  {
    if a == [] {
      assert a + t == t;
    } else {
      DashSeparatedSlice(a, 1, |a|);
      assert a[1..] == a[1..|a|];
      CollapseSlugPrefix(a[1..], t);
      if !IsAlnum(a[0]) {
        assert |a| > 1 && !DoubleDashAt(a, 0);
      }
      CollapseStep(a[0], a[1..], t, Collapse(t));
      assert [a[0]] + a[1..] == a;
      assert a + t == [a[0]] + a[1..] + t;
    }
  }

  /**
   * Two slugs joined by " & " slugify to the two slugs around "-and-":
   * a title such as "Storage & Delivery" gives "storage-and-delivery".
   */
  lemma SlugifyAmpersand(a: string, b: string)
    requires IsSlug(a) && IsSlug(b) && a != [] && b != []
    ensures SlugifyTitle(a + " & " + b) == a + "-and-" + b
  {
    var r := a + ("-and-" + b);
    AmpersandUnmarked(a, b);
    AppendAssoc(a, " & ", b);
    AppendAssoc(a, "-and-", b);
    AmpersandSpelledOut(a, b);
    AmpersandCollapsed(a, b);
    CollapseIsDashSeparated(a + (" and " + b));
    assert r[0] == a[0] && r[|r| - 1] == b[|b| - 1];
    StripDashesOfSlug(r);
  }

  /** Two slugs around " & " hold no combining mark. */
  lemma AmpersandUnmarked(a: string, b: string)
    requires IsSlug(a) && IsSlug(b)
    ensures DropMarks(a + " & " + b) == a + " & " + b
  {
    var t := a + " & " + b;
    forall i | 0 <= i < |t|
      ensures !IsMark(t[i])
    {
      if i < |a| {
        assert t[i] == a[i] && IsSlugChar(a[i]);
      } else if i >= |a| + 3 {
        assert t[i] == b[i - |a| - 3] && IsSlugChar(b[i - |a| - 3]);
      }
    }
    DropMarksOfUnmarked(t);
  }

  /** Lower-casing works character by character, so it distributes over concatenation. */
  lemma {:induction false} LowerAppend(x: string, y: string)
    ensures Lower(x + y) == Lower(x) + Lower(y)
  {
    if x != [] {
      assert (x + y)[1..] == x[1..] + y;
      LowerAppend(x[1..], y);
    }
  }

  /** Two slugs around " & " are already lower-case. */
  lemma AmpersandLower(a: string, b: string)
    requires IsSlug(a) && IsSlug(b)
    ensures Lower(a + (" & " + b)) == a + (" & " + b)
  {
    LowerOfSlug(a);
    LowerOfSlug(b);
    LowerAppend(" & ", b);
    LowerAppend(a, " & " + b);
  }

  /** Two non-empty slugs around " & " are already lower-case and trimmed. */
  lemma AmpersandTitleClean(a: string, b: string)
    requires IsSlug(a) && IsSlug(b) && a != [] && b != []
    ensures Trim(Lower(a + (" & " + b))) == a + (" & " + b)
  {
    var title := a + (" & " + b);
    AmpersandLower(a, b);
    SlugCharNotSpace(a[0]);
    SlugCharNotSpace(b[|b| - 1]);
    assert title[0] == a[0] && title[|title| - 1] == b[|b| - 1];
    TrimOfTrimmed(title);
  }

  lemma AmpersandSpelledOut(a: string, b: string)
    requires IsSlug(a) && IsSlug(b) && a != [] && b != []
    ensures ReplaceAmp(Trim(Lower(a + (" & " + b)))) == a + (" and " + b)
  {
    var title := a + (" & " + b);
    AmpersandTitleClean(a, b);
    ReplaceAmpOfSlug(a);
    ReplaceAmpOfSlug(b);
    ReplaceAmpAppend(a, " & " + b);
    ReplaceAmpAppend(" & ", b);
    ReplaceAmpSpaced();
  }

  lemma AmpersandCollapsed(a: string, b: string)
    requires IsSlug(a) && IsSlug(b) && a != [] && b != []
    ensures Collapse(a + (" and " + b)) == a + ("-and-" + b)
  {
    CollapseSlugPrefix(a, " and " + b);
    CollapseSpacedAnd(b);
  }

  lemma StripDashesOfSlug(s: string)
    requires DashSeparated(s) && (s == [] || (s[0] != '-' && s[|s| - 1] != '-'))
    ensures StripDashes(s) == s
  {
  }

  lemma DashSeparatedAnd()
    ensures DashSeparated("and")
  {
    var w := "and";
    assert w[0] == 'a' && w[1] == 'n' && w[2] == 'd';
    assert !DoubleDashAt(w, 0) && !DoubleDashAt(w, 1);
  }

  /** `Collapse(" and " + b)` for a slug `b`. */
  lemma CollapseSpacedAnd(b: string)
    requires IsSlug(b) && b != []
    ensures Collapse(" and " + b) == "-and-" + b
  {
    var w := "and" + (" " + b);
    assert " and " + b == [' '] + w;
    assert Collapse([' '] + w) == "-" + Collapse(w) by {
      CollapseSpaceCons(w);
    }
    assert Collapse(w) == "and" + Collapse(" " + b) by {
      DashSeparatedAnd();
      CollapseSlugPrefix("and", " " + b);
    }
    assert Collapse(" " + b) == "-" + b by {
      assert b[0] != '-' && IsSlugChar(b[0]);
      CollapseSpaceCons(b);
      CollapseOfDashSeparated(b);
    }
    DashAndDash(b);
  }

  lemma DashAndDash(b: string)
    ensures "-" + ("and" + ("-" + b)) == "-and-" + b
  {
  }

  /** A white-space character in front of a letter or digit becomes one dash. */
  lemma CollapseSpaceCons(u: string)
    requires u != [] && IsAlnum(u[0])
    ensures Collapse([' '] + u) == "-" + Collapse(u)
  {
    assert ([' '] + u)[1..] == u;
    assert SkipRun([' '] + u) == u;
  }

  lemma ReplaceAmpSpaced()
    ensures ReplaceAmp(" & ") == " and "
  {
    assert " & "[1..] == "& " && "& "[1..] == " " && " "[1..] == "";
  }

  lemma {:induction false} ReplaceAmpAppend(x: string, y: string)
    ensures ReplaceAmp(x + y) == ReplaceAmp(x) + ReplaceAmp(y)
  {
    if x != [] {
      var h := if x[0] == '&' then "and" else [x[0]];
      assert (x + y)[1..] == x[1..] + y;
      assert ReplaceAmp(x + y) == h + ReplaceAmp(x[1..] + y);
      ReplaceAmpAppend(x[1..], y);
      AppendAssoc(h, ReplaceAmp(x[1..]), ReplaceAmp(y));
    } else {
      assert x + y == y;
    }
  }
}
