/**
 * The news listing page: clamped paging parameters, the article request (its filters are
 * built up in place), the featured article and the grid cards with their URL, image, tag
 * and excerpt fallbacks, and the pagination links.
 */
module NewsPage {
  import opened Common
  import opened Text
  import opened BlockKit
  import opened Html

  /** `Math.max(1, page ?? 1)`: the page number, never below 1. */
  function PageOf(param: Option<int>): (r: int)
    ensures r >= 1
    ensures param.None? ==> r == 1
    ensures param.Some? && param.value >= 1 ==> r == param.value
    ensures param.Some? && param.value < 1 ==> r == 1
  {
    var p := param.OrElse(1);
    if p < 1 then 1 else p
  }

  /** `Math.min(24, Math.max(6, perPage ?? 9))`: the page size, between 6 and 24. */
  function PerPageOf(param: Option<int>): (r: int)
    ensures 6 <= r <= 24
    ensures param.None? ==> r == 9
    ensures param.Some? && 6 <= param.value <= 24 ==> r == param.value
    ensures param.Some? && param.value < 6 ==> r == 6
    ensures param.Some? && param.value > 24 ==> r == 24
  {
    var p := param.OrElse(9);
    if p < 6 then 6 else if p > 24 then 24 else p
  }

  /** `(page - 1) * perPage`: how many articles the requested page skips. */
  function Offset(page: int, perPage: int): (r: int)
    requires page >= 1 && perPage >= 0
    ensures r >= 0
    ensures page == 1 ==> r == 0
  {
    (page - 1) * perPage
  }

  /** Consecutive pages are adjacent windows: each starts where the previous one ends. */
  lemma PagesTile(page: int, perPage: int)
    requires page >= 1 && perPage >= 0
    ensures Offset(page + 1, perPage) == Offset(page, perPage) + perPage
  {
    assert (page + 1 - 1) * perPage == (page - 1) * perPage + perPage;
  }

  /** `items.length === perPage`: a full page suggests there is another. */
  predicate HasMore(count: nat, perPage: int) {
    count == perPage
  }

  const StatusKey := "filter[status]"
  const ExcludePathKey := "filter[exclude_id][condition][path]"
  const ExcludeOperatorKey := "filter[exclude_id][condition][operator]"
  const ExcludeValueKey := "filter[exclude_id][condition][value]"

  /** `if (excludeId)`: an identifier is given when present and not empty. */
  predicate ExcludeGiven(excludeId: Option<string>) {
    excludeId.Some? && excludeId.value != ""
  }

  /**
   * The request filters, filled in place: the status filter always, and the three
   * exclusion entries exactly when an identifier to exclude is given.
   */
  method BuildFilters(excludeId: Option<string>) returns (filters: map<string, string>)
    ensures StatusKey in filters && filters[StatusKey] == "1"
    ensures !ExcludeGiven(excludeId) ==> filters.Keys == {StatusKey}
    ensures ExcludeGiven(excludeId) ==>
      filters.Keys == {StatusKey, ExcludePathKey, ExcludeOperatorKey, ExcludeValueKey}
    ensures ExcludeGiven(excludeId) ==>
      filters[ExcludePathKey] == "id" && filters[ExcludeOperatorKey] == "<>"
      && filters[ExcludeValueKey] == excludeId.value
  {
    filters := map[StatusKey := "1"];
    if excludeId.Some? && excludeId.value != "" {
      filters := filters[ExcludePathKey := "id"];
      filters := filters[ExcludeOperatorKey := "<>"];
      filters := filters[ExcludeValueKey := excludeId.value];
    }
  }

  /** An image file reference: `uri.url`, `uri.value` and `url`, each possibly absent. */
  datatype ImageFile = ImageFile(uriUrl: Option<string>, uriValue: Option<string>, url: Option<string>)

  /** A media entity: the image bundle's file, or the remote video's thumbnail. */
  datatype NewsMedia = NewsMedia(image: Option<ImageFile>, thumbnail: Option<ImageFile>)

  /** A taxonomy term; its name may be absent. */
  datatype Tag = Tag(name: Option<string>)

  /** The article fields the page reads. */
  datatype Article = Article(id: string, title: string, alias: Option<string>,
                             summary: Option<string>, processed: Option<string>,
                             media: Multi<NewsMedia>, tags: seq<Tag>)

  /** `absUrl` of the page: nothing for an empty URL, otherwise the block helper's result. */
  function PageAbsUrl(base: string, url: string): (r: Option<string>)
    ensures r.None? <==> url == ""
    ensures r.Some? ==> r.value == AbsUrl(base, Some(url)) && r.value != ""
  {
    if url == "" then None else Some(AbsUrl(base, Some(url)))
  }

  /** `path.alias ?? "/blog/" + id`: a present alias wins even when empty. */
  function ArticleUrl(a: Article): (r: string)
    ensures a.alias.Some? ==> r == a.alias.value
    ensures a.alias.None? ==> r == "/blog/" + a.id
  {
    match a.alias
    case Some(alias) => alias
    case None => "/blog/" + a.id
  }

  /** `pickMedia`: the first of a list, the single value, or nothing. */
  function PickMedia(m: Multi<NewsMedia>): (r: Option<NewsMedia>)
    ensures r.None? <==> ReadList(m) == []
    ensures r.Some? ==> r.value == ReadList(m)[0]
  {
    match m
    case NoValue => None
    case Single(x) => Some(x)
    case Many(xs) => if xs == [] then None else Some(xs[0])
  }

  /** `getMediaUrl`: the image file, else the thumbnail; its first non-empty source, made absolute. */
  function MediaUrl(base: string, media: Option<NewsMedia>): (r: Option<string>)
    ensures media.None? ==> r.None?
    ensures r.Some? ==> r.value != ""
  {
    match media
    case None => None
    case Some(m) =>
      var file := if m.image.Some? then m.image else m.thumbnail;
      var raw := if file.None? then ""
        else FirstNonEmpty([file.value.uriUrl.OrElse(""), file.value.uriValue.OrElse(""), file.value.url.OrElse("")]);
      PageAbsUrl(base, raw)
  }

  /** A present image file wins over the thumbnail, even when it names no source. */
  lemma ImageFileShadowsThumbnail(base: string, m: NewsMedia)
    requires m.image == Some(ImageFile(None, None, None))
    ensures MediaUrl(base, Some(m)).None?
  {
    assert FirstNonEmpty(["", "", ""]) == "";
  }

  const Placeholder := "/images/placeholder.jpg"

  /** `getFirstImage(n) || "/images/placeholder.jpg"`. */
  function ImageSrc(base: string, a: Article): (r: string)
    ensures r != ""
    ensures MediaUrl(base, PickMedia(a.media)).None? ==> r == Placeholder
    ensures MediaUrl(base, PickMedia(a.media)).Some? ==> r == MediaUrl(base, PickMedia(a.media)).value
  {
    MediaUrl(base, PickMedia(a.media)).OrElse(Placeholder)
  }

  /** `field_tags?.[0]?.name || undefined`. */
  function FirstTag(a: Article): (r: Option<string>)
    ensures r.Some? <==> a.tags != [] && a.tags[0].name.Some? && a.tags[0].name.value != ""
    ensures r.Some? ==> r.value == a.tags[0].name.value
  {
    if a.tags == [] || a.tags[0].name.None? || a.tags[0].name.value == "" then None
    else a.tags[0].name
  }

  /** The text an excerpt is cut from: the trimmed summary, else the stripped body. */
  function ExcerptSource(a: Article): (r: string)
    ensures IsTrimmed(r)
    ensures Trim(a.summary.OrElse("")) != "" ==> r == Trim(a.summary.OrElse(""))
    ensures Trim(a.summary.OrElse("")) == "" ==> r == StripHtml(a.processed.OrElse(""))
  {
    var s := Trim(a.summary.OrElse(""));
    if s != "" then s else StripHtml(a.processed.OrElse(""))
  }

  /**
   * `getExcerpt`: a source no longer than the limit is returned as is; a longer one is cut
   * to the limit, right-trimmed, and marked with an ellipsis.
   */
  function Excerpt(a: Article, limit: nat): (r: string)
    ensures var t := ExcerptSource(a); |t| <= limit ==> r == t
    ensures var t := ExcerptSource(a);
      |t| > limit ==> (0 < |r| <= limit + 1 && r[|r| - 1] == '…' && r[..|r| - 1] <= t)
    ensures var t := ExcerptSource(a); |t| > limit ==> r == TrimEnd(t[..limit]) + "…"
    ensures r == "" <==> ExcerptSource(a) == ""
  {
    var text := ExcerptSource(a);
    if text == "" then ""
    else if |text| > limit then
      var cut := TrimEnd(text[..limit]);
      assert cut <= text;
      var r := cut + "…";
      assert r[..|r| - 1] == cut;
      r
    else text
  }

  /** What one article renders as: its link, image, first tag, title and excerpt. */
  datatype Card = Card(title: string, href: string, image: string, tag: Option<string>, excerpt: string)

  function CardOf(base: string, a: Article, limit: nat): (c: Card)
    ensures c.title == a.title && c.href == ArticleUrl(a) && c.image == ImageSrc(base, a)
    ensures c.tag == FirstTag(a) && c.excerpt == Excerpt(a, limit)
  {
    Card(a.title, ArticleUrl(a), ImageSrc(base, a), FirstTag(a), Excerpt(a, limit))
  }

  /** The link to a page of the listing. */
  function PageHref(page: nat, perPage: nat): string {
    "/news?page=" + NatToString(page) + "&" + "perPage=" + NatToString(perPage)
  }

  /** A digit string followed by '&' is determined by the text it starts. */
  lemma DigitsBeforeAmp(s1: string, t1: string, s2: string, t2: string)
    requires forall i :: 0 <= i < |s1| ==> '0' <= s1[i] <= '9'
    requires forall i :: 0 <= i < |s2| ==> '0' <= s2[i] <= '9'
    ensures s1 + "&" + t1 == s2 + "&" + t2 ==> s1 == s2 && t1 == t2
  {
    var x := s1 + "&" + t1;
    var y := s2 + "&" + t2;
    if |s1| < |s2| {
      assert x[|s1|] == '&' != s2[|s1|] == y[|s1|];
    } else if |s2| < |s1| {
      assert y[|s2|] == '&' != s1[|s2|] == x[|s2|];
    } else {
      assert s1 == x[..|s1|] && s2 == y[..|s2|];
      assert t1 == x[|s1| + 1..] && t2 == y[|s2| + 1..];
    }
  }

  /** A page link is the fixed prefix followed by the page digits, '&' and the size part. */
  lemma PageHrefShape(page: nat, perPage: nat)
    ensures PageHref(page, perPage)[11..] == NatToString(page) + "&" + ("perPage=" + NatToString(perPage))
  {
    var a, b, c := "/news?page=", NatToString(page), NatToString(perPage);
    AppendAssoc(a + b + "&", "perPage=", c);
    AppendAssoc(a + b, "&", "perPage=" + c);
    AppendAssoc(a, b, "&" + ("perPage=" + c));
    AppendAssoc(b, "&", "perPage=" + c);
    DropPrefix(a, b + "&" + ("perPage=" + c));
  }

  /** Different pages or page sizes get different links: the link names both numbers. */
  lemma PageHrefInjective(p1: nat, pp1: nat, p2: nat, pp2: nat)
    requires PageHref(p1, pp1) == PageHref(p2, pp2)
    ensures p1 == p2 && pp1 == pp2
  {
    var t1 := "perPage=" + NatToString(pp1);
    var t2 := "perPage=" + NatToString(pp2);
    PageHrefShape(p1, pp1);
    PageHrefShape(p2, pp2);
    DigitsBeforeAmp(NatToString(p1), t1, NatToString(p2), t2);
    assert NatToString(pp1) == t1[8..] && NatToString(pp2) == t2[8..];
    NatToStringValue(p1);
    NatToStringValue(p2);
    NatToStringValue(pp1);
    NatToStringValue(pp2);
  }

  /** The pagination links: "Newer" is disabled ("#") on the first page, "Older" always links on. */
  datatype Pager = Pager(newerHref: string, newerDisabled: bool, olderHref: string)

  function PagerOf(page: int, perPage: int): (p: Pager)
    requires page >= 1 && perPage >= 0
    ensures p.newerDisabled <==> page <= 1
    ensures p.newerDisabled ==> p.newerHref == "#"
    ensures !p.newerDisabled ==> p.newerHref == PageHref(page - 1, perPage)
    ensures p.olderHref == PageHref(page + 1, perPage)
  {
    Pager(if page <= 1 then "#" else PageHref(page - 1, perPage), page <= 1, PageHref(page + 1, perPage))
  }

  /** Following "Older" and then "Newer" comes back to the same page with the same size. */
  lemma OlderThenNewer(page: int, perPage: int)
    requires page >= 1 && perPage >= 0
    ensures PagerOf(page + 1, perPage).newerHref == PageHref(page, perPage)
    ensures PagerOf(page + 1, perPage).newerHref != PagerOf(page, perPage).olderHref
  {
    if PageHref(page, perPage) == PageHref(page + 1, perPage) {
      PageHrefInjective(page, perPage, page + 1, perPage);
    }
  }

  /** What the page renders: the featured article (excerpt up to 220), the grid (160), the pager. */
  datatype View = View(featured: Option<Card>, items: seq<Card>, page: int, pager: Pager)

  /**
   * The page, given the featured article and the fetched page of articles: `notFound`
   * exactly when there is neither.
   */
  function Render(base: string, featured: Option<Article>, items: seq<Article>,
                  pageParam: Option<int>, perPageParam: Option<int>): (r: Option<View>)
    ensures r.None? <==> featured.None? && items == []
    ensures r.Some? ==> r.value.page == PageOf(pageParam) && r.value.page >= 1
    ensures r.Some? ==> (|r.value.items| == |items|
      && forall i :: 0 <= i < |items| ==> r.value.items[i] == CardOf(base, items[i], 160))
    ensures r.Some? && featured.Some? ==> r.value.featured == Some(CardOf(base, featured.value, 220))
    ensures r.Some? && featured.None? ==> r.value.featured.None?
    ensures r.Some? ==> r.value.pager == PagerOf(r.value.page, PerPageOf(perPageParam))
  {
    var page := PageOf(pageParam);
    var perPage := PerPageOf(perPageParam);
    if featured.None? && items == [] then None
    else
      var f := if featured.Some? then Some(CardOf(base, featured.value, 220)) else None;
      Some(View(f, seq(|items|, i requires 0 <= i < |items| => CardOf(base, items[i], 160)),
                page, PagerOf(page, perPage)))
  }
}
