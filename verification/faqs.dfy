/**
 * The FAQ block: a single-block fetch written as `filtered[0] ?? rows[0]` with no default
 * path, a section title defaulting to "FAQs", question/answer items, and at most two calls
 * to action taken after invalid links are dropped.
 */
module Faqs {
  import opened Common
  import opened BlockKit

  /** A question and its answer: absent title and description read as "". */
  datatype Item = Item(title: string, description: string)

  /** The fields of the block the component reads. */
  datatype Block = Block(title: Option<Formatted>, items: Multi<Item>, links: seq<Option<RawLink>>)

  /** `fetchBlock`: nothing for no rows or a failure, else the filtered head or the newest row. */
  function FetchBlock(ans: Fetched<seq<Row<Block>>>, path: string): (r: Option<Row<Block>>)
    ensures r.None? <==> ans.FetchFailed? || ans.value == []
    ensures r.Some? && path == "" ==> r.value == ans.value[0]
    ensures r.Some? ==> r.value in ans.value
    ensures r.Some? && path != "" ==> var m := Matching(ans.value, Norm(Some(path)));
      r.value == (if m != [] then m[0] else ans.value[0])
  {
    FetchFilteredHead(ans, path)
  }

  /** `processed ?? value ?? "FAQs"`. */
  function SectionTitle(t: Option<Formatted>): (r: string)
    ensures t.None? || (t.value.processed.None? && t.value.value.None?) ==> r == "FAQs"
    ensures t.Some? && t.value.processed.Some? ==> r == t.value.processed.value
    ensures t.Some? && t.value.processed.None? && t.value.value.Some? ==> r == t.value.value.value
  {
    TextOr(t, "FAQs")
  }

  /** `links.map(linkFromDrupal).filter(Boolean).slice(0, 2)`. */
  function Ctas(links: seq<Option<RawLink>>): (r: seq<Link>)
    ensures |r| <= 2
    ensures r <= ParsedLinks(links)
    ensures |r| == if |ParsedLinks(links)| < 2 then |ParsedLinks(links)| else 2
  {
    var parsed := ParsedLinks(links);
    if |parsed| <= 2 then parsed else parsed[..2]
  }

  /** Once two valid links have been seen, later entries never change the CTAs. */
  lemma LaterLinksIgnored(xs: seq<Option<RawLink>>, ys: seq<Option<RawLink>>)
    requires |ParsedLinks(xs)| >= 2
    ensures Ctas(xs + ys) == Ctas(xs)
  {
    ParsedLinksAppend(xs, ys);
    var p := ParsedLinks(xs);
    assert (p + ParsedLinks(ys))[..2] == p[..2];
  }

  /** Invalid entries before the CTAs do not take their places. */
  lemma InvalidLinksSkipped(bad: seq<Option<RawLink>>, xs: seq<Option<RawLink>>)
    requires forall i :: 0 <= i < |bad| ==> LinkFromDrupal(bad[i]).None?
    ensures Ctas(bad + xs) == Ctas(xs)
  {
    ParsedLinksAppend(bad, xs);
    ParsedLinksEmpty(bad);
  }

  /** What the block renders as. */
  datatype View = View(title: string, items: seq<Item>, ctas: seq<Link>)

  /** Items render only from an array. */
  function ViewOf(b: Block): (v: View)
    ensures v.items == (if b.items.Many? then b.items.items else [])
    ensures v.ctas == Ctas(b.links) && v.title == SectionTitle(b.title)
  {
    View(SectionTitle(b.title), if b.items.Many? then b.items.items else [], Ctas(b.links))
  }

  /** The component: the path is passed through unset when absent; nothing renders without a block. */
  function Render(ans: Fetched<seq<Row<Block>>>, path: Option<string>): (r: Option<View>)
    ensures r.None? <==> ans.FetchFailed? || ans.value == []
    ensures r.Some? ==> r.value == ViewOf(FetchBlock(ans, path.OrElse("")).value.block)
  {
    match FetchBlock(ans, path.OrElse(""))
    case None => None
    case Some(row) => Some(ViewOf(row.block))
  }
}
