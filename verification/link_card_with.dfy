/**
 * The "title, description, link card with media" block: a tolerant list fetch, one
 * two-column section per block, a media card with a placeholder, and CTA buttons whose
 * styling depends on their position in the raw link list.
 */
module LinkCardWith {
  import opened Common
  import opened BlockKit

  /** The fields of one block the component reads (absent text fields read as ""). */
  datatype Block = Block(
    title: Option<Formatted>,
    body: string,
    descImage: string,
    media: Option<Media>,
    links: Multi<Option<RawLink>>)

  /** `fetchBlocks`: the tolerant list fetch. */
  function FetchBlocks(ans: Fetched<seq<Row<Block>>>, path: string): (r: seq<Row<Block>>)
    ensures ans.FetchFailed? ==> r == []
    ensures ans.Fetched? && path != "" ==> r == TolerantFilter(ans.value, path)
    ensures ans.Fetched? && path == "" ==> r == ans.value
    ensures r == [] <==> ans.FetchFailed? || ans.value == []
  {
    FetchList(ans, path)
  }

  /**
   * One CTA button: the position `index` of its entry in the raw link list (part of its
   * React key), the parsed link, and whether it is styled solid.
   */
  datatype Cta = Cta(index: nat, link: Link, solid: bool)

  /**
   * `links.map((lk, idx) => …)` from position `from` on: invalid entries render nothing
   * and are not re-indexed, and the entry at original index 1 is the solid one.
   */
  function CtasFrom(links: seq<Option<RawLink>>, from: nat): (r: seq<Cta>)
    requires from <= |links|
    ensures forall k :: 0 <= k < |r| ==> from <= r[k].index < |links|
    ensures forall k :: 0 <= k < |r| ==> LinkFromDrupal(links[r[k].index]) == Some(r[k].link)
    ensures forall k :: 0 <= k < |r| ==> (r[k].solid <==> r[k].index == 1)
    ensures forall j, k :: 0 <= j < k < |r| ==> r[j].index < r[k].index
    decreases |links| - from
  {
    if from == |links| then []
    else
      match LinkFromDrupal(links[from])
      case Some(l) => [Cta(from, l, from == 1)] + CtasFrom(links, from + 1)
      case None => CtasFrom(links, from + 1)
  }

  /** The CTA buttons of a link list; at most one of them is solid. */
  function Ctas(links: seq<Option<RawLink>>): (r: seq<Cta>)
    ensures forall j, k :: 0 <= j < |r| && 0 <= k < |r| && r[j].solid && r[k].solid ==> j == k
  {
    CtasFrom(links, 0)
  }

  /** The links a CTA list shows, in order. */
  function LinksOf(cs: seq<Cta>): (r: seq<Link>)
    ensures |r| == |cs|
  {
    if cs == [] then [] else [cs[0].link] + LinksOf(cs[1..])
  }

  /** Every valid entry gets a button, exactly once and in order. */
  lemma {:induction false} CtasFromCoverValid(links: seq<Option<RawLink>>, from: nat)
    requires from <= |links|
    ensures LinksOf(CtasFrom(links, from)) == ParsedLinks(links[from..])
    decreases |links| - from
  {
    if from < |links| {
      CtasFromCoverValid(links, from + 1);
      assert links[from..][1..] == links[from + 1..];
      assert links[from..][0] == links[from];
      var rest := CtasFrom(links, from + 1);
      match LinkFromDrupal(links[from])
      case Some(l) =>
        assert ([Cta(from, l, from == 1)] + rest)[1..] == rest;
      case None =>
    }
  }

  /** The buttons show exactly the links that `linkFromDrupal` accepts, in order. */
  lemma CtaLinksAreParsed(links: seq<Option<RawLink>>)
    ensures LinksOf(Ctas(links)) == ParsedLinks(links)
  {
    CtasFromCoverValid(links, 0);
    assert links[0..] == links;
  }

  /** A valid entry at index 1 is the solid button. */
  lemma SecondEntrySolid(links: seq<Option<RawLink>>)
    requires |links| > 1 && LinkFromDrupal(links[1]).Some?
    ensures exists k :: 0 <= k < |Ctas(links)| && Ctas(links)[k].solid
  {
    var l1 := LinkFromDrupal(links[1]).value;
    var r1 := CtasFrom(links, 1);
    assert r1 == [Cta(1, l1, true)] + CtasFrom(links, 2);
    var r0 := CtasFrom(links, 0);
    match LinkFromDrupal(links[0])
    case Some(l0) =>
      assert r0 == [Cta(0, l0, false)] + r1;
      assert Ctas(links) == r0 && Ctas(links)[1].solid;
    case None =>
      assert r0 == r1;
      assert Ctas(links) == r0 && Ctas(links)[0].solid;
  }

  /** What one block renders as. */
  datatype Section = Section(title: string, body: string, media: MediaView, descImage: string, ctas: seq<Cta>)

  /** One block's section: the CTA row is drawn only for an array of links. */
  function SectionOf(base: string, b: Block): (s: Section)
    ensures s.media == RenderMedia(base, b.media, true, "Embedded media")
    ensures b.links.Many? ==> LinksOf(s.ctas) == ParsedLinks(b.links.items)
    ensures !b.links.Many? ==> s.ctas == []
    ensures s.title == TextOr(b.title, "") && s.body == b.body && s.descImage == b.descImage
  {
    var media := RenderMedia(base, b.media, true, "Embedded media");
    if b.links.Many? then
      CtaLinksAreParsed(b.links.items);
      Section(TextOr(b.title, ""), b.body, media, b.descImage, Ctas(b.links.items))
    else Section(TextOr(b.title, ""), b.body, media, b.descImage, [])
  }

  /**
   * The component: the path defaults to "/", nothing renders when the fetch failed or
   * selected no block, otherwise one section per selected block, in order.
   */
  function Render(base: string, ans: Fetched<seq<Row<Block>>>, path: Option<string>): (r: Option<seq<Section>>)
    ensures r.None? <==> ans.FetchFailed? || ans.value == []
    ensures r.Some? ==> var blocks := FetchBlocks(ans, path.OrElse("/"));
      |r.value| == |blocks| && forall i :: 0 <= i < |blocks| ==> r.value[i] == SectionOf(base, blocks[i].block)
  {
    var blocks := FetchBlocks(ans, path.OrElse("/"));
    if blocks == [] then None else Some(Sections(base, blocks))
  }

  /** One section per block, in order. */
  function Sections(base: string, blocks: seq<Row<Block>>): (r: seq<Section>)
    ensures |r| == |blocks| && forall i :: 0 <= i < |blocks| ==> r[i] == SectionOf(base, blocks[i].block)
  {
    seq(|blocks|, i requires 0 <= i < |blocks| => SectionOf(base, blocks[i].block))
  }
}
