// The helpers every CMS block component repeats: choosing rows by `field_path` after
// the collection is fetched, turning Drupal link fields into hrefs, making media URLs
// absolute, rewriting video URLs into embed URLs and choosing what a media field renders.
module BlockKit {
  import opened Common
  import opened Text

  /* ---------------- rows and their paths ---------------- */

  /**
   * One row of a fetched block collection: its `field_path` (read from the resource or
   * its attributes) and the rest of the block.
   */
  datatype Row<B> = Row(fieldPath: Option<string>, block: B)

  /** `String(v ?? "").trim().toLowerCase()`. */
  function Norm(v: Option<string>): (r: string)
    ensures IsTrimmed(r)
    ensures |r| <= |v.OrElse("")|
  {
    var t := Trim(v.OrElse(""));
    LowerTrimmed(t);
    Lower(t)
  }

  /** Lower-casing leaves white space where it was. */
  lemma LowerTrimmed(t: string)
    requires IsTrimmed(t)
    ensures IsTrimmed(Lower(t))
  {
  }

  /** Normalising a normalised path changes nothing. */
  lemma NormIdempotent(v: Option<string>)
    ensures Norm(Some(Norm(v))) == Norm(v)
  {
    var n := Norm(v);
    TrimOfTrimmed(n);
    LowerIdempotent(Trim(v.OrElse("")));
  }

  /** A row's normalised path equals the wanted one or, being non-empty, starts with it. */
  predicate PathMatches(bp: string, want: string) {
    bp == want || (bp != "" && want <= bp)
  }

  predicate RowMatches<B(!new)>(row: Row<B>, want: string) {
    PathMatches(Norm(row.fieldPath), want)
  }

  /** `xs.filter(keep)`: the kept elements, in their order. */
  function Filter<T>(xs: seq<T>, keep: T -> bool): (r: seq<T>)
    ensures |r| <= |xs|
  {
    if xs == [] then []
    else if keep(xs[0]) then [xs[0]] + Filter(xs[1..], keep)
    else Filter(xs[1..], keep)
  }

  /** The filter keeps exactly the elements that pass. */
  lemma {:induction false} FilterMembers<T(!new)>(xs: seq<T>, keep: T -> bool)
    ensures forall x :: x in Filter(xs, keep) <==> x in xs && keep(x)
    decreases |xs|
  {
    if xs != [] {
      FilterMembers(xs[1..], keep);
      assert xs == [xs[0]] + xs[1..];
    }
  }

  /** The filter distributes over concatenation. */
  lemma {:induction false} FilterAppend<T>(a: seq<T>, b: seq<T>, keep: T -> bool)
    ensures Filter(a + b, keep) == Filter(a, keep) + Filter(b, keep)
    decreases |a|
  {
    if a == [] {
      assert a + b == b;
    } else {
      assert (a + b)[0] == a[0];
      assert (a + b)[1..] == a[1..] + b;
      FilterAppend(a[1..], b, keep);
    }
  }

  /** When every element passes, all are kept. */
  lemma {:induction false} FilterAll<T>(xs: seq<T>, keep: T -> bool)
    requires forall i :: 0 <= i < |xs| ==> keep(xs[i])
    ensures Filter(xs, keep) == xs
    decreases |xs|
  {
    if xs != [] {
      assert forall i :: 0 <= i < |xs[1..]| ==> xs[1..][i] == xs[i + 1];
      FilterAll(xs[1..], keep);
      assert xs == [xs[0]] + xs[1..];
    }
  }

  /** When no element passes, none is kept. */
  lemma {:induction false} FilterNone<T>(xs: seq<T>, keep: T -> bool)
    requires forall i :: 0 <= i < |xs| ==> !keep(xs[i])
    ensures Filter(xs, keep) == []
    decreases |xs|
  {
    if xs != [] {
      assert forall i :: 0 <= i < |xs[1..]| ==> xs[1..][i] == xs[i + 1];
      FilterNone(xs[1..], keep);
    }
  }

  /** The row test of the path filters, as a function value. */
  function PathTest<B(!new)>(want: string): Row<B> -> bool {
    row => RowMatches(row, want)
  }

  /** `rows.filter(b => matches(b))`. */
  function Matching<B(!new)>(rows: seq<Row<B>>, want: string): (r: seq<Row<B>>)
    ensures |r| <= |rows|
  {
    Filter(rows, PathTest(want))
  }

  /** The filter keeps exactly the matching rows. */
  lemma MatchingMembers<B(!new)>(rows: seq<Row<B>>, want: string)
    ensures forall x :: x in Matching(rows, want) <==> x in rows && RowMatches(x, want)
  {
    FilterMembers(rows, PathTest(want));
  }

  /** The filter keeps the order of the rows: it distributes over concatenation. */
  lemma MatchingAppend<B(!new)>(a: seq<Row<B>>, b: seq<Row<B>>, want: string)
    ensures Matching(a + b, want) == Matching(a, want) + Matching(b, want)
  {
    FilterAppend(a, b, PathTest(want));
  }

  /** Rows that all match are all kept, in the same order. */
  lemma MatchingAll<B(!new)>(rows: seq<Row<B>>, want: string)
    requires forall i :: 0 <= i < |rows| ==> RowMatches(rows[i], want)
    ensures Matching(rows, want) == rows
  {
    FilterAll(rows, PathTest(want));
  }

  /**
   * The tolerant list filter: the matching rows in order, or every row when none
   * matches. It is empty only when there are no rows.
   */
  function TolerantFilter<B(!new)>(rows: seq<Row<B>>, path: string): (r: seq<Row<B>>)
    ensures (exists x :: x in rows && RowMatches(x, Norm(Some(path))))
      ==> forall x :: x in r <==> x in rows && RowMatches(x, Norm(Some(path)))
    ensures (forall x :: x in rows ==> !RowMatches(x, Norm(Some(path)))) ==> r == rows
    ensures r == [] <==> rows == []
  {
    var filtered := Matching(rows, Norm(Some(path)));
    MatchingMembers(rows, Norm(Some(path)));
    if filtered != [] then
      assert filtered[0] in filtered;
      filtered
    else rows
  }

  /** A row that matches is kept by the tolerant filter. */
  lemma MatchKept<B(!new)>(rows: seq<Row<B>>, path: string, x: Row<B>)
    requires x in rows && RowMatches(x, Norm(Some(path)))
    ensures x in TolerantFilter(rows, path)
  {
    assert exists y :: y in rows && RowMatches(y, Norm(Some(path)));
  }

  /** A list of rows none of which matches filters to nothing. */
  lemma MatchingNone<B(!new)>(rows: seq<Row<B>>, want: string)
    requires forall i :: 0 <= i < |rows| ==> !RowMatches(rows[i], want)
    ensures Matching(rows, want) == []
  {
    FilterNone(rows, PathTest(want));
  }

  /** `rows.find(matches)`. */
  function FirstMatch<B(!new)>(rows: seq<Row<B>>, want: string): (r: Option<Row<B>>)
    ensures r.Some? ==> r.value in rows && RowMatches(r.value, want)
    ensures r.None? ==> forall x :: x in rows ==> !RowMatches(x, want)
  {
    if rows == [] then None
    else if RowMatches(rows[0], want) then Some(rows[0])
    else FirstMatch(rows[1..], want)
  }

  /** `find` returns the first row the filter keeps. */
  lemma {:induction false} FirstMatchIsHead<B(!new)>(rows: seq<Row<B>>, want: string)
    ensures FirstMatch(rows, want) == (if Matching(rows, want) == [] then None else Some(Matching(rows, want)[0]))
    decreases |rows|
  {
    if rows != [] && !RowMatches(rows[0], want) {
      FirstMatchIsHead(rows[1..], want);
    }
  }

  /**
   * The tolerant single pick, `find(matches) ?? rows[0]` (written `filtered[0] ?? rows[0]`
   * in some blocks): the first match, else the first (newest) row, else nothing.
   */
  function TolerantPick<B(!new)>(rows: seq<Row<B>>, path: string): (r: Option<Row<B>>)
    ensures r.None? <==> rows == []
    ensures r.Some? ==> r.value in rows
    ensures r.Some? ==> var m := Matching(rows, Norm(Some(path)));
      r.value == (if m != [] then m[0] else rows[0])
  {
    FirstMatchIsHead(rows, Norm(Some(path)));
    match FirstMatch(rows, Norm(Some(path)))
    case Some(b) => Some(b)
    case None => if rows == [] then None else Some(rows[0])
  }

  /** The single pick is the head of the list filter with the same path. */
  lemma PickIsFilterHead<B(!new)>(rows: seq<Row<B>>, path: string)
    ensures TolerantPick(rows, path)
      == (if TolerantFilter(rows, path) == [] then None else Some(TolerantFilter(rows, path)[0]))
  {
    FirstMatchIsHead(rows, Norm(Some(path)));
  }

  /** `rows.filter(b => (b.field_path ?? b.attributes.field_path) === path)`. */
  function ExactFilter<B(!new)>(rows: seq<Row<B>>, path: string): (r: seq<Row<B>>)
    ensures |r| <= |rows|
    ensures forall x :: x in r <==> x in rows && x.fieldPath == Some(path)
  {
    if rows == [] then []
    else if rows[0].fieldPath == Some(path) then [rows[0]] + ExactFilter(rows[1..], path)
    else ExactFilter(rows[1..], path)
  }

  /** The exact filter keeps rows in their order: it distributes over concatenation. */
  lemma {:induction false} ExactFilterAppend<B(!new)>(xs: seq<Row<B>>, ys: seq<Row<B>>, path: string)
    ensures ExactFilter(xs + ys, path) == ExactFilter(xs, path) + ExactFilter(ys, path)
    decreases |xs|
  {
    if xs == [] {
      assert xs + ys == ys;
    } else {
      assert (xs + ys)[0] == xs[0] && (xs + ys)[1..] == xs[1..] + ys;
      ExactFilterAppend(xs[1..], ys, path);
      AppendAssoc([xs[0]], ExactFilter(xs[1..], path), ExactFilter(ys, path));
    }
  }

  /** Every row the exact filter keeps, the tolerant filter keeps too. */
  lemma ExactWithinTolerant<B(!new)>(rows: seq<Row<B>>, path: string)
    ensures forall x :: x in ExactFilter(rows, path) ==> x in TolerantFilter(rows, path)
  {
    var want := Norm(Some(path));
    forall x | x in ExactFilter(rows, path)
      ensures x in TolerantFilter(rows, path)
    {
      assert RowMatches(x, want);
      MatchKept(rows, path, x);
    }
  }

  /* ---------------- the three fetch shapes ---------------- */

  /**
   * The list fetch: a failed request gives [], no path gives every row, and a path
   * gives the tolerant filter with its fallback.
   */
  function FetchList<B(!new)>(ans: Fetched<seq<Row<B>>>, path: string): (r: seq<Row<B>>)
    ensures ans.FetchFailed? ==> r == []
    ensures ans.Fetched? && path == "" ==> r == ans.value
    ensures ans.Fetched? && path != "" ==> r == TolerantFilter(ans.value, path)
    ensures r == [] <==> ans.FetchFailed? || ans.value == []
  {
    match ans
    case FetchFailed => []
    case Fetched(rows) => if path == "" then rows else TolerantFilter(rows, path)
  }

  /**
   * The single-block fetch: a failed request or no rows gives nothing, no path gives
   * the first row, and a path gives the tolerant pick.
   */
  function FetchOne<B(!new)>(ans: Fetched<seq<Row<B>>>, path: string): (r: Option<Row<B>>)
    ensures r.None? <==> ans.FetchFailed? || ans.value == []
    ensures r.Some? ==> r.value in ans.value
    ensures r.Some? && path == "" ==> r.value == ans.value[0]
    ensures r.Some? && path != "" ==> var m := Matching(ans.value, Norm(Some(path)));
      r.value == (if m != [] then m[0] else ans.value[0])
  {
    match ans
    case FetchFailed => None
    case Fetched(rows) =>
      if rows == [] then None
      else if path == "" then Some(rows[0])
      else TolerantPick(rows, path)
  }

  /** The single-block fetch picks the first block the list fetch would render. */
  lemma FetchOneIsHead<B(!new)>(ans: Fetched<seq<Row<B>>>, path: string)
    ensures FetchOne(ans, path) == (if FetchList(ans, path) == [] then None else Some(FetchList(ans, path)[0]))
  {
    if ans.Fetched? && path != "" {
      PickIsFilterHead(ans.value, path);
    }
  }

  /**
   * The single-block fetch written as `filtered[0] ?? rows[0]`: the head of the list
   * filter, else the first row. It picks the same block as `FetchOne`.
   */
  function FetchFilteredHead<B(!new)>(ans: Fetched<seq<Row<B>>>, path: string): (r: Option<Row<B>>)
    ensures r == FetchOne(ans, path)
  {
    match ans
    case FetchFailed => None
    case Fetched(rows) =>
      if rows == [] then None
      else if path == "" then Some(rows[0])
      else
        var filtered := Matching(rows, Norm(Some(path)));
        FirstMatchIsHead(rows, Norm(Some(path)));
        if filtered != [] then Some(filtered[0]) else Some(rows[0])
  }

  /** The exact fetch: no try/catch, so a failure propagates; otherwise the exact filter. */
  function FetchExact<B(!new)>(ans: Fetched<seq<Row<B>>>, path: string): (r: Fetched<seq<Row<B>>>)
    ensures r.FetchFailed? <==> ans.FetchFailed?
    ensures r.Fetched? ==> forall x :: x in r.value <==> x in ans.value && x.fieldPath == Some(path)
  {
    match ans
    case FetchFailed => FetchFailed
    case Fetched(rows) => Fetched(ExactFilter(rows, path))
  }

  /* ---------------- links ---------------- */

  /**
   * A Drupal link field value. `uriValue`, `uri`, `url` and `value` are the four places
   * its target may sit (`uri.value ?? uri ?? url ?? value`); titles use "" for absent.
   */
  datatype RawLink = RawLink(
    uriValue: Option<string>, uri: Option<string>, url: Option<string>, value: Option<string>,
    title: string, optionsTitle: string)

  function RawUri(l: RawLink): Option<string> {
    Coalesce(l.uriValue, Coalesce(l.uri, Coalesce(l.url, l.value)))
  }

  /** A link ready to render. */
  datatype Link = Link(href: string, text: string, isExternal: bool)

  const InternalScheme := "internal:"

  /** `href.startsWith("internal:") ? href.replace(/^internal:/, "") || "/" : href`. */
  function StripInternal(s: string): (r: string)
    ensures InternalScheme <= s && |s| > |InternalScheme| ==> r == s[|InternalScheme|..]
    ensures s == InternalScheme ==> r == "/"
    ensures !(InternalScheme <= s) ==> r == s
    ensures s != "" ==> r != ""
  {
    if InternalScheme <= s then
      if |s| == |InternalScheme| then "/" else s[|InternalScheme|..]
    else s
  }

  /** Prefixing "internal:" and stripping it again gives back the path ("/" for the bare scheme). */
  lemma StripInternalInverse(p: string)
    ensures StripInternal(InternalScheme + p) == (if p == "" then "/" else p)
  {
    assert InternalScheme <= InternalScheme + p;
    assert (InternalScheme + p)[|InternalScheme|..] == p;
  }

  /** `title || options.title || "Learn more"`. */
  function LinkLabel(l: RawLink): (r: string)
    ensures r != ""
    ensures l.title != "" ==> r == l.title
  {
    if l.title != "" then l.title else if l.optionsTitle != "" then l.optionsTitle else "Learn more"
  }

  /**
   * `linkFromDrupal`: nothing for a falsy value or an empty target; otherwise the target
   * with "internal:" stripped, its label, and whether it is an absolute http(s) URL.
   */
  function LinkFromDrupal(link: Option<RawLink>): (r: Option<Link>)
    ensures r.Some? <==> link.Some? && RawUri(link.value).Some? && RawUri(link.value).value != ""
    ensures r.Some? ==> r.value.href == StripInternal(RawUri(link.value).value) && r.value.href != ""
    ensures r.Some? ==> r.value.text == LinkLabel(link.value)
    ensures r.Some? ==> (r.value.isExternal <==> HasHttpScheme(r.value.href))
  {
    if link.None? then None
    else
      var uri := RawUri(link.value);
      if uri.None? || uri.value == "" then None
      else
        var href := StripInternal(uri.value);
        Some(Link(href, LinkLabel(link.value), HasHttpScheme(href)))
  }

  /** `list[i]`, which is `undefined` past the end. */
  function Nth<T>(s: seq<Option<T>>, i: nat): (r: Option<T>)
    ensures i < |s| ==> r == s[i]
    ensures i >= |s| ==> r.None?
  {
    if i < |s| then s[i] else None
  }

  /** `links.map(linkFromDrupal).filter(Boolean)`. */
  function ParsedLinks(links: seq<Option<RawLink>>): (r: seq<Link>)
    ensures |r| <= |links|
    ensures forall i :: 0 <= i < |r| ==> r[i].href != "" && r[i].text != ""
  {
    if links == [] then []
    else
      match LinkFromDrupal(links[0])
      case Some(l) => [l] + ParsedLinks(links[1..])
      case None => ParsedLinks(links[1..])
  }

  /** Nothing survives exactly when no entry is a valid link. */
  lemma {:induction false} ParsedLinksEmpty(links: seq<Option<RawLink>>)
    ensures ParsedLinks(links) == [] <==> forall i :: 0 <= i < |links| ==> LinkFromDrupal(links[i]).None?
    decreases |links|
  {
    if links != [] {
      ParsedLinksEmpty(links[1..]);
      assert forall i :: 1 <= i < |links| ==> links[i] == links[1..][i - 1];
    }
  }

  /** Dropping invalid links keeps the others in order: it distributes over concatenation. */
  lemma {:induction false} ParsedLinksAppend(a: seq<Option<RawLink>>, b: seq<Option<RawLink>>)
    ensures ParsedLinks(a + b) == ParsedLinks(a) + ParsedLinks(b)
    decreases |a|
  {
    if a == [] {
      assert a + b == b;
    } else {
      assert (a + b)[0] == a[0];
      assert (a + b)[1..] == a[1..] + b;
      ParsedLinksAppend(a[1..], b);
    }
  }

  /**
   * `normalizeLink` for plain link-URI fields: nothing for an absent or blank value,
   * otherwise the trimmed value with "internal:" stripped.
   */
  function NormalizeLink(uri: Option<string>): (r: Option<string>)
    ensures r.Some? <==> uri.Some? && Trim(uri.value) != ""
    ensures r.Some? ==> r.value == StripInternal(Trim(uri.value)) && r.value != ""
  {
    if uri.None? || uri.value == "" then None
    else
      var href := Trim(uri.value);
      if href == "" then None else Some(StripInternal(href))
  }

  /** On a non-empty trimmed value, `normalizeLink` only strips the scheme. */
  lemma NormalizeTrimmed(s: string)
    requires s != "" && Trim(s) == s
    ensures NormalizeLink(Some(s)) == Some(StripInternal(s))
  {
  }

  /** On a trimmed target, `normalizeLink` and `linkFromDrupal` agree on the href. */
  lemma NormalizeAgreesWithLinkFromDrupal(uri: string, title: string)
    requires IsTrimmed(uri)
    ensures var l := LinkFromDrupal(Some(RawLink(Some(uri), None, None, None, title, "")));
      NormalizeLink(Some(uri)) == (if l.Some? then Some(l.value.href) else None)
  {
    TrimOfTrimmed(uri);
  }

  /** The link part of a card built from plain `link_uri` / `link_title` fields. */
  datatype CardLink = CardLink(href: Option<string>, caption: string)

  /**
   * `normalizeLink(link_uri)` and `(link_title || "Learn more").trim()`: the card is a
   * link iff its normalised href exists; the label is trimmed and defaults to "Learn more"
   * only for an empty title (a blank one trims to "").
   */
  function CardLinkOf(linkUri: Option<string>, linkTitle: string): (r: CardLink)
    ensures r.href == NormalizeLink(linkUri)
    ensures linkTitle == "" ==> r.caption == "Learn more"
    ensures linkTitle != "" ==> r.caption == Trim(linkTitle)
    ensures IsTrimmed(r.caption)
    ensures linkTitle != "" && IsTrimmed(linkTitle) ==> r.caption == linkTitle
  {
    var t := if linkTitle != "" then linkTitle else "Learn more";
    assert IsTrimmed(t) ==> Trim(t) == t by {
      if IsTrimmed(t) { TrimOfTrimmed(t); }
    }
    CardLink(NormalizeLink(linkUri), Trim(t))
  }

  /** A link title of only white space gives an empty caption, not the default. */
  lemma BlankLinkTitleGivesEmptyLabel()
    ensures CardLinkOf(None, " ").caption == ""
  {
    assert IsSpace(' ');
    assert TrimStart(" ") == TrimStart(" "[1..]);
    assert " "[1..] == "";
  }

  /** `toLink`: an empty href and not external for a missing target, else as `linkFromDrupal`. */
  function ToLink(href: Option<string>): (r: (string, bool))
    ensures r.0 == "" <==> href.None? || href.value == ""
    ensures r.0 == "" ==> !r.1
    ensures r.0 != "" ==> r.0 == StripInternal(href.value) && (r.1 <==> HasHttpScheme(r.0))
  {
    if href.None? || href.value == "" then ("", false)
    else
      var url := StripInternal(href.value);
      (url, HasHttpScheme(url))
  }

  /** `toLink` and `linkFromDrupal` give the same href and external flag for a present target. */
  lemma ToLinkAgreesWithLinkFromDrupal(uri: string, title: string)
    requires uri != ""
    ensures var l := LinkFromDrupal(Some(RawLink(Some(uri), None, None, None, title, "")));
      l.Some? && ToLink(Some(uri)) == (l.value.href, l.value.isExternal)
  {
  }

  /* ---------------- URLs ---------------- */

  /** `process.env.NEXT_PUBLIC_DRUPAL_BASE_URL?.replace(/\/$/, "") || ""`. */
  function DrupalBase(env: Option<string>): (r: string)
    ensures env.None? ==> r == ""
    ensures env.Some? ==> r == DropTrailingSlash(env.value)
  {
    if env.None? then "" else DropTrailingSlash(env.value)
  }

  /** `url.startsWith("/") ? url : "/" + url`. */
  function Rooted(url: string): (r: string)
    ensures r != [] && r[0] == '/'
    ensures url != [] && url[0] == '/' ==> r == url
    ensures url == [] || url[0] != '/' ==> r == "/" + url
  {
    if url != [] && url[0] == '/' then url else "/" + url
  }

  /**
   * `absUrl`: "" for a missing or empty URL, an http(s) URL unchanged, anything else
   * appended to the CMS base as a rooted path.
   */
  function AbsUrl(base: string, url: Option<string>): (r: string)
    ensures url.None? || url.value == "" ==> r == ""
    ensures url.Some? && HasHttpScheme(url.value) ==> r == url.value
    ensures url.Some? && url.value != "" && !HasHttpScheme(url.value) ==> r == base + Rooted(url.value)
    ensures r == "" <==> url.None? || url.value == ""
  {
    if url.None? || url.value == "" then ""
    else if HasHttpScheme(url.value) then url.value
    else base + Rooted(url.value)
  }

  /** A scheme survives appending: an http(s) string keeps it with anything after it. */
  lemma {:induction false} SchemeExtends(a: string, b: string)
    requires HasHttpScheme(a)
    ensures HasHttpScheme(a + b)
  {
    var l := Lower(a + b);
    assert l[..|a|] == Lower(a);
  }

  /** With an http(s) base, making a URL absolute twice is the same as once. */
  lemma AbsUrlIdempotent(base: string, url: Option<string>)
    requires HasHttpScheme(base)
    ensures AbsUrl(base, Some(AbsUrl(base, url))) == AbsUrl(base, url)
  {
    if url.Some? && url.value != "" && !HasHttpScheme(url.value) {
      SchemeExtends(base, Rooted(url.value));
    }
  }

  /** What `new URL(s)` exposes to `toEmbedUrl`, or a parse failure. */
  datatype ParsedUrl = Unparseable | Parsed(hostname: string, pathname: string, v: Option<string>)

  /** `s.replace("/", "")`: the first slash removed. */
  function RemoveFirstSlash(s: string): (r: string)
    ensures '/' !in s ==> r == s
    ensures |r| == (if '/' in s then |s| - 1 else |s|)
  {
    if s == [] then []
    else if s[0] == '/' then s[1..]
    else [s[0]] + RemoveFirstSlash(s[1..])
  }

  /** `s.split("/").filter(Boolean)`. */
  function Segments(s: string): (r: seq<string>)
    ensures forall i :: 0 <= i < |r| ==> r[i] != "" && '/' !in r[i]
  {
    NonEmptyAvoids(Split(s, '/'), '/');
    NonEmpty(Split(s, '/'))
  }

  /** `parts.filter(Boolean)`. */
  function NonEmpty(parts: seq<string>): (r: seq<string>)
    ensures |r| <= |parts|
    ensures forall i :: 0 <= i < |r| ==> r[i] != ""
    ensures forall x :: x in r <==> x in parts && x != ""
  {
    if parts == [] then []
    else if parts[0] != "" then [parts[0]] + NonEmpty(parts[1..])
    else NonEmpty(parts[1..])
  }

  lemma {:induction false} NonEmptyAvoids(parts: seq<string>, c: char)
    requires forall i :: 0 <= i < |parts| ==> c !in parts[i]
    ensures forall i :: 0 <= i < |NonEmpty(parts)| ==> c !in NonEmpty(parts)[i]
    decreases |parts|
  {
    if parts != [] {
      NonEmptyAvoids(parts[1..], c);
    }
  }

  const YouTubeEmbed := "https://www.youtube.com/embed/"
  const VimeoPlayer := "https://player.vimeo.com/video/"

  /** `.pop()`: the last element of a non-empty list. */
  function Last(xs: seq<string>): (r: string)
    requires xs != []
    ensures r in xs
  {
    xs[|xs| - 1]
  }

  /** The first rule of `toEmbedUrl`: a youtube.com host with a non-empty `v` parameter. */
  predicate YouTubeWatch(host: string, v: Option<string>)
  {
    Contains(host, "youtube.com") && v.Some? && v.value != ""
  }

  /**
   * `toEmbedUrl`: a youtube.com URL with a `v` parameter, a youtu.be short link and a
   * vimeo.com URL become player URLs, tried in that order; anything else, or a URL that
   * does not parse, is returned as given.
   */
  function ToEmbedUrl(url: string, parsed: ParsedUrl): (r: string)
    ensures parsed.Unparseable? ==> r == url
    ensures r == url || YouTubeEmbed <= r || VimeoPlayer <= r
    ensures parsed.Parsed? && YouTubeWatch(parsed.hostname, parsed.v)
      ==> r == YouTubeEmbed + parsed.v.value
    ensures parsed.Parsed? && !YouTubeWatch(parsed.hostname, parsed.v)
      && parsed.hostname == "youtu.be" && RemoveFirstSlash(parsed.pathname) != ""
      ==> r == YouTubeEmbed + RemoveFirstSlash(parsed.pathname)
    ensures parsed.Parsed? && !YouTubeWatch(parsed.hostname, parsed.v)
      && !(parsed.hostname == "youtu.be" && RemoveFirstSlash(parsed.pathname) != "")
      && Contains(parsed.hostname, "vimeo.com") && Segments(parsed.pathname) != []
      ==> r == VimeoPlayer + Last(Segments(parsed.pathname))
    ensures parsed.Parsed? && !YouTubeWatch(parsed.hostname, parsed.v)
      && !(parsed.hostname == "youtu.be" && RemoveFirstSlash(parsed.pathname) != "")
      && !(Contains(parsed.hostname, "vimeo.com") && Segments(parsed.pathname) != [])
      ==> r == url
  {
    match parsed
    case Unparseable => url
    case Parsed(host, path, v) =>
      if YouTubeWatch(host, v) then YouTubeEmbed + v.value
      else if host == "youtu.be" && RemoveFirstSlash(path) != "" then YouTubeEmbed + RemoveFirstSlash(path)
      else if Contains(host, "vimeo.com") && Segments(path) != [] then VimeoPlayer + Last(Segments(path))
      else url
  }

  /**
   * A youtu.be short link, whatever its path and query, embeds its path without the first
   * slash; the youtube.com rule never applies to that host.
   */
  lemma EmbedYouTuBe(url: string, path: string, v: Option<string>)
    requires RemoveFirstSlash(path) != ""
    ensures ToEmbedUrl(url, Parsed("youtu.be", path, v)) == YouTubeEmbed + RemoveFirstSlash(path)
  {
    NoLongerContains("youtu.be", "youtube.com");
  }

  /**
   * A vimeo.com URL, whatever its path and query, embeds the last non-empty segment of its
   * path; a path without one is returned as given.
   */
  lemma EmbedVimeo(url: string, path: string, v: Option<string>)
    ensures Segments(path) != [] ==> ToEmbedUrl(url, Parsed("vimeo.com", path, v)) == VimeoPlayer + Last(Segments(path))
    ensures Segments(path) == [] ==> ToEmbedUrl(url, Parsed("vimeo.com", path, v)) == url
  {
    NoLongerContains("vimeo.com", "youtube.com");
    assert Contains("vimeo.com", "vimeo.com");
  }

  /** A string shorter than the pattern cannot contain it. */
  lemma {:induction false} NoLongerContains(s: string, sub: string)
    requires |s| < |sub|
    ensures !Contains(s, sub)
    decreases |s|
  {
    if s != [] {
      NoLongerContains(s[1..], sub);
    }
  }

  /* ---------------- media ---------------- */

  /**
   * A media entity: its bundle (`type`), the candidate sources of its image file in the
   * order `getImageFromMedia` tries them, its oembed URL with how it parses, and its
   * names: `attributes.name` and the top-level `name`, "" when absent.
   */
  datatype Media = Media(kind: string, imageSources: seq<string>, oembed: Option<string>,
                         oembedParsed: ParsedUrl, attrName: string, name: string)

  const MediaImageType := "media--image"
  const MediaRemoteType := "media--remote_video"

  /** `a || b || ...`: the first non-empty candidate, or "" when there is none. */
  function FirstNonEmpty(cands: seq<string>): (r: string)
    ensures r != "" ==> r in cands
    ensures r == "" <==> forall i :: 0 <= i < |cands| ==> cands[i] == ""
  {
    if cands == [] then ""
    else if cands[0] != "" then cands[0]
    else
      assert forall i :: 1 <= i < |cands| ==> cands[i] == cands[1..][i - 1];
      FirstNonEmpty(cands[1..])
  }

  /** What a media field renders as. */
  datatype MediaView = Placeholder | Nothing | Image(src: string, alt: string) | Video(src: string, title: string)

  /**
   * `RenderMedia`: no media gives the placeholder (where the block has one) or nothing;
   * an image renders only with a non-empty resolved source; a remote video only with an
   * oembed URL; every other bundle renders nothing.
   */
  function RenderMedia(base: string, media: Option<Media>, placeholder: bool, videoTitle: string): (v: MediaView)
    ensures media.None? ==> v == (if placeholder then Placeholder else Nothing)
    ensures v.Image? ==> media.Some? && media.value.kind == MediaImageType && v.src != ""
    ensures v.Video? ==> media.Some? && media.value.kind == MediaRemoteType && media.value.oembed.Some?
    ensures media.Some? && media.value.kind != MediaImageType && media.value.kind != MediaRemoteType ==> v == Nothing
    ensures v.Image? ==> v.src == AbsUrl(base, Some(FirstNonEmpty(media.value.imageSources)))
    ensures v.Image? ==> v.alt == FirstNonEmpty([media.value.attrName, media.value.name, "Media image"])
    ensures v.Video? ==> v.title == (if media.value.attrName != "" then media.value.attrName else videoTitle)
  {
    match media
    case None => if placeholder then Placeholder else Nothing
    case Some(m) =>
      if m.kind == MediaImageType then
        var src := AbsUrl(base, Some(FirstNonEmpty(m.imageSources)));
        if src == "" then Nothing
        else Image(src, FirstNonEmpty([m.attrName, m.name, "Media image"]))
      else if m.kind == MediaRemoteType then
        if m.oembed.None? || m.oembed.value == "" then Nothing
        else Video(ToEmbedUrl(m.oembed.value, m.oembedParsed), if m.attrName != "" then m.attrName else videoTitle)
      else Nothing
  }

  /** An image renders exactly when one of its sources is non-empty. */
  lemma ImageRendersIffSource(base: string, m: Media, placeholder: bool, videoTitle: string)
    requires m.kind == MediaImageType
    ensures RenderMedia(base, Some(m), placeholder, videoTitle).Image?
      <==> exists i :: 0 <= i < |m.imageSources| && m.imageSources[i] != ""
  {
  }

  /* ---------------- list-valued fields ---------------- */

  /** A field that may hold an array, a single object, or nothing usable. */
  datatype Multi<T> = NoValue | Single(item: T) | Many(items: seq<T>)

  /** `Array.isArray(raw) ? raw : raw && typeof raw === "object" ? [raw] : []`. */
  function ReadList<T>(raw: Multi<T>): (r: seq<T>)
    ensures raw.NoValue? ==> r == []
    ensures raw.Single? ==> r == [raw.item]
    ensures raw.Many? ==> r == raw.items
  {
    match raw
    case NoValue => []
    case Single(x) => [x]
    case Many(xs) => xs
  }

  /** A formatted text field: `processed` and `value` (either may be missing). */
  datatype Formatted = Formatted(processed: Option<string>, value: Option<string>)

  /** `f?.processed ?? f?.value ?? d`. */
  function TextOr(f: Option<Formatted>, d: string): (r: string)
    ensures f.Some? && f.value.processed.Some? ==> r == f.value.processed.value
    ensures f.Some? && f.value.processed.None? && f.value.value.Some? ==> r == f.value.value.value
    ensures (f.None? || (f.value.processed.None? && f.value.value.None?)) ==> r == d
  {
    if f.Some? && f.value.processed.Some? then f.value.processed.value
    else if f.Some? && f.value.value.Some? then f.value.value.value
    else d
  }
}
