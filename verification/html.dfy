/**
 * Plain text from HTML fragments, as the news listing and the latest-articles block take it:
 * the regular expression `<[^>]*>?` read as a left-to-right character scan (a tag runs from
 * a '<' to the next '>', or to the end of the text when none follows), and `\s+` collapsed
 * to one space.
 */
module Html {
  import opened Text

  /** What is left after a tag opened: everything after the next '>', or nothing. */
  function AfterTag(t: string): (r: string)
    ensures |r| <= |t| && r == t[|t| - |r|..]
  {
    if t == [] then []
    else if t[0] == '>' then t[1..]
    else AfterTag(t[1..])
  }

  /** `s.replace(/<[^>]*>?/gm, rep)`: every tag, closed or not, becomes `rep`. */
  function ReplaceTags(s: string, rep: string): (r: string)
    decreases |s|
  {
    if s == [] then []
    else if s[0] == '<' then rep + ReplaceTags(AfterTag(s[1..]), rep)
    else [s[0]] + ReplaceTags(s[1..], rep)
  }

  /** No '<' survives: each one opens a tag that is replaced. */
  lemma {:induction false} ReplaceTagsNoOpen(s: string, rep: string)
    requires '<' !in rep
    ensures '<' !in ReplaceTags(s, rep)
    decreases |s|
  {
    if s != [] {
      if s[0] == '<' {
        ReplaceTagsNoOpen(AfterTag(s[1..]), rep);
      } else {
        ReplaceTagsNoOpen(s[1..], rep);
      }
    }
  }

  /** Text without any '<' passes through unchanged. */
  lemma {:induction false} ReplaceTagsPlain(s: string, rep: string)
    requires '<' !in s
    ensures ReplaceTags(s, rep) == s
    decreases |s|
  {
    if s != [] {
      assert s[0] in s;
      assert forall c :: c in s[1..] ==> c in s;
      ReplaceTagsPlain(s[1..], rep);
    }
  }

  /** A closed tag between two runs of text is replaced by `rep` and nothing else changes. */
  lemma ReplaceOneTag(a: string, tag: string, b: string, rep: string)
    requires '<' !in a && '>' !in tag
    ensures ReplaceTags(a + "<" + tag + ">" + b, rep) == a + rep + ReplaceTags(b, rep)
  {
    var t := "<" + tag + ">" + b;
    assert a + "<" + tag + ">" + b == a + t;
    PlainPrefix(a, t, rep);
    LeadingTag(tag, b, rep);
  }

  /** Text without '<' in front of anything passes through unchanged. */
  lemma {:induction false} PlainPrefix(a: string, t: string, rep: string)
    requires '<' !in a
    ensures ReplaceTags(a + t, rep) == a + ReplaceTags(t, rep)
    decreases |a|
  {
    if a == [] {
      assert a + t == t;
    } else {
      assert a[0] in a;
      assert (a + t)[0] == a[0] && (a + t)[1..] == a[1..] + t;
      SliceAvoids(a, 1, |a|, '<');
      assert a[1..|a|] == a[1..];
      PlainPrefix(a[1..], t, rep);
      assert a == [a[0]] + a[1..];
    }
  }

  /** A closed tag at the front becomes `rep`. */
  lemma LeadingTag(tag: string, b: string, rep: string)
    requires '>' !in tag
    ensures ReplaceTags("<" + tag + ">" + b, rep) == rep + ReplaceTags(b, rep)
  {
    var t := "<" + tag + ">" + b;
    assert t[0] == '<';
    assert t[1..] == tag + ">" + b;
    AfterClosedTag(tag, b);
  }

  /** Scanning past a tag body without '>' stops right after its closing '>'. */
  lemma {:induction false} AfterClosedTag(tag: string, b: string)
    requires '>' !in tag
    ensures AfterTag(tag + ">" + b) == b
    decreases |tag|
  {
    var t := tag + ">" + b;
    if tag == [] {
      assert t == ">" + b;
      assert t[1..] == b;
    } else {
      assert t[0] == tag[0] && tag[0] in tag;
      assert t[1..] == tag[1..] + ">" + b;
      assert forall c :: c in tag[1..] ==> c in tag;
      AfterClosedTag(tag[1..], b);
    }
  }

  /** `s.replace(/\s+/g, " ")`: every run of white space becomes one plain space. */
  function CollapseSpaces(s: string): (r: string)
    ensures s == [] <==> r == []
    ensures s != [] && !IsSpace(s[0]) ==> r[0] == s[0]
    decreases |s|
  {
    if s == [] then []
    else if IsSpace(s[0]) then [' '] + CollapseSpaces(TrimStart(s[1..]))
    else [s[0]] + CollapseSpaces(s[1..])
  }

  /** The collapse only rewrites white space: every other character is kept, in order. */
  lemma {:induction false} CollapseKeepsNonSpace(s: string)
    ensures NonSpace(CollapseSpaces(s)) == NonSpace(s)
    decreases |s|
  {
    if s != [] {
      if IsSpace(s[0]) {
        var t := TrimStart(s[1..]);
        CollapseKeepsNonSpace(t);
        NonSpaceAppend([' '], CollapseSpaces(t));
        assert NonSpace([' ']) == [];
        NonSpaceOfTrimStart(s[1..]);
      } else {
        CollapseKeepsNonSpace(s[1..]);
        NonSpaceAppend([s[0]], CollapseSpaces(s[1..]));
        assert NonSpace([s[0]]) == [s[0]];
      }
    }
  }

  /** Every white-space character is a plain space and is followed by a non-space. */
  predicate Collapsed(s: string) {
    forall i :: 0 <= i < |s| && IsSpace(s[i]) ==> s[i] == ' ' && (i + 1 < |s| ==> !IsSpace(s[i + 1]))
  }

  /** Prefixing one character keeps a text collapsed when that character fits. */
  lemma ConsCollapsed(c: char, x: string)
    requires Collapsed(x)
    requires IsSpace(c) ==> c == ' ' && (x == [] || !IsSpace(x[0]))
    ensures Collapsed([c] + x)
  {
    var s := [c] + x;
    forall i | 0 <= i < |s| && IsSpace(s[i])
      ensures s[i] == ' ' && (i + 1 < |s| ==> !IsSpace(s[i + 1]))
    {
      if i > 0 {
        assert s[i] == x[i - 1];
        if i + 1 < |s| {
          assert s[i + 1] == x[i];
        }
      }
    }
  }

  /** The collapse leaves no run of white space and no other white-space character. */
  lemma {:induction false} CollapseCollapsed(s: string)
    ensures Collapsed(CollapseSpaces(s))
    decreases |s|
  {
    if s != [] {
      if IsSpace(s[0]) {
        var t := TrimStart(s[1..]);
        CollapseCollapsed(t);
        ConsCollapsed(' ', CollapseSpaces(t));
      } else {
        CollapseCollapsed(s[1..]);
        ConsCollapsed(s[0], CollapseSpaces(s[1..]));
      }
    }
  }

  /** A collapsed text is its own collapse. */
  lemma {:induction false} CollapseIdentity(s: string)
    requires Collapsed(s)
    ensures CollapseSpaces(s) == s
    decreases |s|
  {
    if s != [] {
      var t := s[1..];
      assert Collapsed(t) by {
        forall i | 0 <= i < |t| && IsSpace(t[i])
          ensures t[i] == ' ' && (i + 1 < |t| ==> !IsSpace(t[i + 1]))
        {
          assert t[i] == s[i + 1];
          if i + 1 < |t| {
            assert t[i + 1] == s[i + 2];
          }
        }
      }
      CollapseIdentity(t);
      if IsSpace(s[0]) {
        assert s[0] == ' ';
        assert t == [] || !IsSpace(t[0]) by {
          if t != [] {
            assert t[0] == s[1];
          }
        }
        assert TrimStart(t) == t;
      }
      assert s == [s[0]] + t;
    }
  }

  /** The collapse only adds plain spaces: any other absent character stays absent. */
  lemma {:induction false} CollapseAvoids(s: string, c: char)
    requires !IsSpace(c) && c !in s
    ensures c !in CollapseSpaces(s)
    decreases |s|
  {
    if s != [] {
      var t := s[1..];
      SliceAvoids(s, 1, |s|, c);
      assert s[1..|s|] == t;
      if IsSpace(s[0]) {
        var u := TrimStart(t);
        SliceAvoids(t, |t| - |u|, |t|, c);
        assert t[|t| - |u|..|t|] == u;
        CollapseAvoids(u, c);
        ConcatAvoids([' '], CollapseSpaces(u), c);
      } else {
        assert s[0] in s;
        CollapseAvoids(t, c);
        ConcatAvoids([s[0]], CollapseSpaces(t), c);
      }
    }
  }

  /** Any slice of a collapsed text is collapsed. */
  lemma CollapsedSlice(s: string, a: nat, b: nat)
    requires Collapsed(s) && a <= b <= |s|
    ensures Collapsed(s[a..b])
  {
    var t := s[a..b];
    forall i | 0 <= i < |t| && IsSpace(t[i])
      ensures t[i] == ' ' && (i + 1 < |t| ==> !IsSpace(t[i + 1]))
    {
      assert t[i] == s[a + i];
      if i + 1 < |t| {
        assert t[i + 1] == s[a + i + 1];
      }
    }
  }

  /** Trimming keeps a text collapsed. */
  lemma TrimCollapsed(s: string)
    requires Collapsed(s)
    ensures Collapsed(Trim(s))
  {
    var u := TrimStart(s);
    CollapsedSlice(s, |s| - |u|, |s|);
    CollapsedSlice(u, 0, |TrimEnd(u)|);
  }

  /**
   * `stripHtml`: every tag becomes a space, white-space runs become one space, and the
   * result is trimmed. It contains no '<', no run of white space and no white space at
   * either end.
   */
  function StripHtml(html: string): (r: string)
    ensures IsTrimmed(r) && Collapsed(r) && '<' !in r
  {
    var spaced := ReplaceTags(html, " ");
    var collapsed := CollapseSpaces(spaced);
    ReplaceTagsNoOpen(html, " ");
    CollapseAvoids(spaced, '<');
    CollapseCollapsed(spaced);
    TrimCollapsed(collapsed);
    TrimAvoids(collapsed, '<');
    Trim(collapsed)
  }

  /** Apart from white space, the stripped text is the text with its tags replaced. */
  lemma StripHtmlKeepsText(html: string)
    ensures NonSpace(StripHtml(html)) == NonSpace(ReplaceTags(html, " "))
  {
    var spaced := ReplaceTags(html, " ");
    CollapseKeepsNonSpace(spaced);
    NonSpaceOfTrim(CollapseSpaces(spaced));
  }

  /** Stripping plain text a second time changes nothing. */
  lemma StripHtmlIdempotent(html: string)
    ensures StripHtml(StripHtml(html)) == StripHtml(html)
  {
    var x := StripHtml(html);
    ReplaceTagsPlain(x, " ");
    CollapseIdentity(x);
    TrimOfTrimmed(x);
  }

  /**
   * The latest-articles variant: tags are removed without leaving a space and the result
   * is trimmed; white space inside is kept as it is.
   */
  function StripTags(html: string): (r: string)
    ensures IsTrimmed(r) && '<' !in r
  {
    var bare := ReplaceTags(html, "");
    ReplaceTagsNoOpen(html, "");
    TrimAvoids(bare, '<');
    Trim(bare)
  }

  /** Apart from white space at the ends, the result is the text with its tags removed. */
  lemma StripTagsKeepsText(html: string)
    ensures NonSpace(StripTags(html)) == NonSpace(ReplaceTags(html, ""))
  {
    NonSpaceOfTrim(ReplaceTags(html, ""));
  }

  /** Removing tags from text that has none left only trims it again, which changes nothing. */
  lemma StripTagsIdempotent(html: string)
    ensures StripTags(StripTags(html)) == StripTags(html)
  {
    var x := StripTags(html);
    ReplaceTagsPlain(x, "");
    TrimOfTrimmed(x);
  }

  /**
   * In the latest-articles variant a closed tag between two words leaves nothing: the
   * words are joined without a space.
   */
  lemma TagBetweenWordsJoined(a: string, tag: string, b: string)
    requires '<' !in a && '<' !in b && '>' !in tag
    requires a != [] && b != [] && !IsSpace(a[0]) && !IsSpace(b[|b| - 1])
    ensures StripTags(a + "<" + tag + ">" + b) == a + b
  {
    ReplaceOneTag(a, tag, b, "");
    ReplaceTagsPlain(b, "");
    assert a + "" + b == a + b;
    assert (a + b)[0] == a[0] && (a + b)[|a + b| - 1] == b[|b| - 1];
    TrimOfTrimmed(a + b);
  }
}
