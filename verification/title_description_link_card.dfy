/**
 * The "title, description, link card" block: a tolerant list fetch, and per block a left
 * column with every valid link as a button (the first one primary) and a right card with
 * the second text or a fixed placeholder.
 */
module TitleDescriptionLinkCard {
  import opened Common
  import opened BlockKit

  /** The fields of one block the component reads (absent text fields read as ""). */
  datatype Block = Block(title: Option<Formatted>, body: string, second: string,
                         links: Multi<Option<RawLink>>)

  /** `fetchBlocks`: the tolerant list fetch; a failure gives no rows. */
  function FetchBlocks(ans: Fetched<seq<Row<Block>>>, path: string): (r: seq<Row<Block>>)
    ensures ans.FetchFailed? ==> r == []
    ensures ans.Fetched? && path != "" ==> r == TolerantFilter(ans.value, path)
    ensures ans.Fetched? && path == "" ==> r == ans.value
    ensures r == [] <==> ans.FetchFailed? || ans.value == []
  {
    FetchList(ans, path)
  }

  /** A button: the link and whether it carries the primary styling. */
  datatype Button = Button(link: Link, primary: bool)

  /**
   * `linkItems.map((l, idx) => …)`: the valid links, wrapped into a list when single, each
   * styled primary exactly when it is the first surviving one.
   */
  function Buttons(raw: Multi<Option<RawLink>>): (r: seq<Button>)
    ensures var ls := ParsedLinks(ReadList(raw));
      |r| == |ls| && forall i :: 0 <= i < |r| ==> r[i].link == ls[i] && (r[i].primary <==> i == 0)
  {
    var ls := ParsedLinks(ReadList(raw));
    seq(|ls|, i requires 0 <= i < |ls| => Button(ls[i], i == 0))
  }

  /**
   * Position counts after filtering: an invalid first entry hands the primary styling to
   * the next valid one.
   */
  lemma InvalidFirstPromotesNext(bad: Option<RawLink>, good: RawLink, rest: seq<Option<RawLink>>)
    requires LinkFromDrupal(bad).None? && LinkFromDrupal(Some(good)).Some?
    ensures var bs := Buttons(Many([bad, Some(good)] + rest));
      bs != [] && bs[0].primary && Some(bs[0].link) == LinkFromDrupal(Some(good))
  {
    var xs := [bad, Some(good)] + rest;
    assert xs[0] == bad && xs[1..] == [Some(good)] + rest;
    assert ([Some(good)] + rest)[0] == Some(good);
    assert ParsedLinks(xs) == ParsedLinks(xs[1..]);
  }

  /** The right-hand card: the second text, or the "Details" placeholder when it is empty. */
  datatype SecondCard = SecondText(html: string) | DetailsPlaceholder

  function SecondCardOf(second: string): (c: SecondCard)
    ensures c.DetailsPlaceholder? <==> second == ""
    ensures c.SecondText? ==> c.html == second
  {
    if second == "" then DetailsPlaceholder else SecondText(second)
  }

  /** What one block renders as. */
  datatype Section = Section(title: string, body: string, buttons: seq<Button>, card: SecondCard)

  function SectionOf(b: Block): (s: Section)
    ensures s.buttons == Buttons(b.links) && s.card == SecondCardOf(b.second)
    ensures s.title == TextOr(b.title, "") && s.body == b.body
  {
    Section(TextOr(b.title, ""), b.body, Buttons(b.links), SecondCardOf(b.second))
  }

  /**
   * The component: the path defaults to "/", nothing renders when the fetch failed or
   * selected no block, otherwise one section per selected block, in order.
   */
  function Render(ans: Fetched<seq<Row<Block>>>, path: Option<string>): (r: Option<seq<Section>>)
    ensures r.None? <==> ans.FetchFailed? || ans.value == []
    ensures r.Some? ==> var blocks := FetchBlocks(ans, path.OrElse("/"));
      |r.value| == |blocks| && forall i :: 0 <= i < |blocks| ==> r.value[i] == SectionOf(blocks[i].block)
  {
    var blocks := FetchBlocks(ans, path.OrElse("/"));
    if blocks == [] then None else Some(Sections(blocks))
  }

  /** One section per block, in order. */
  function Sections(blocks: seq<Row<Block>>): (r: seq<Section>)
    ensures |r| == |blocks| && forall i :: 0 <= i < |blocks| ==> r[i] == SectionOf(blocks[i].block)
  {
    seq(|blocks|, i requires 0 <= i < |blocks| => SectionOf(blocks[i].block))
  }
}
