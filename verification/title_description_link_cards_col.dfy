/**
 * The "title, description, link cards column" block: a tolerant list fetch, and per block a
 * title and intro, the grey cards when the field holds a list, and at most two calls to
 * action taken by position from the link list.
 */
module TitleDescriptionLinkCardsCol {
  import opened Common
  import opened BlockKit

  /** A grey card: each part is drawn only when it is not empty. */
  datatype GreyCard = GreyCard(caption: string, title: string, text: string)

  /** The fields of one block the component reads (absent text fields read as ""). */
  datatype Block = Block(title: Option<Formatted>, body: string, cards: Multi<GreyCard>,
                         links: seq<Option<RawLink>>)

  /** `fetchBlocks`: the tolerant list fetch; a failure gives no rows. */
  function FetchBlocks(ans: Fetched<seq<Row<Block>>>, path: string): (r: seq<Row<Block>>)
    ensures ans.FetchFailed? ==> r == []
    ensures ans.Fetched? && path != "" ==> r == TolerantFilter(ans.value, path)
    ensures ans.Fetched? && path == "" ==> r == ans.value
    ensures r == [] <==> ans.FetchFailed? || ans.value == []
  {
    FetchList(ans, path)
  }

  /** What one block renders as. */
  datatype Section = Section(title: string, body: string, cards: seq<GreyCard>,
                             primary: Option<Link>, secondary: Option<Link>, showCtas: bool)

  /**
   * `const [primary, secondary] = links.map(linkFromDrupal)`: positions 0 and 1, each
   * possibly invalid; the CTA row is drawn iff one of them is valid. Cards are drawn only
   * from a list value.
   */
  function SectionOf(b: Block): (s: Section)
    ensures s.title == TextOr(b.title, "") && s.body == b.body
    ensures s.primary == LinkFromDrupal(Nth(b.links, 0)) && s.secondary == LinkFromDrupal(Nth(b.links, 1))
    ensures s.showCtas <==> s.primary.Some? || s.secondary.Some?
    ensures b.cards.Many? ==> s.cards == b.cards.items
    ensures !b.cards.Many? ==> s.cards == []
  {
    var primary := LinkFromDrupal(Nth(b.links, 0));
    var secondary := LinkFromDrupal(Nth(b.links, 1));
    Section(TextOr(b.title, ""), b.body, if b.cards.Many? then b.cards.items else [],
            primary, secondary, primary.Some? || secondary.Some?)
  }

  /** Links after the second are never rendered. */
  lemma LaterLinksNeverRendered(b: Block, more: seq<Option<RawLink>>)
    requires |b.links| >= 2
    ensures SectionOf(b.(links := b.links[..2] + more)) == SectionOf(b)
  {
    var ls := b.links[..2] + more;
    assert ls[0] == b.links[0] && ls[1] == b.links[1];
  }

  /** The CTA row shows exactly when the first two entries hold a valid link. */
  lemma CtaRowIffValidLeadingLink(b: Block)
    ensures SectionOf(b).showCtas <==> ParsedLinks(b.links[..if |b.links| < 2 then |b.links| else 2]) != []
  {
    var xs := b.links;
    if |xs| >= 2 {
      var ys := xs[..2];
      assert ys[0] == xs[0] && ys[1..][0] == xs[1] && ys[1..][1..] == [];
    } else if |xs| == 1 {
      assert xs[..1][0] == xs[0] && xs[..1][1..] == [];
    }
  }

  /**
   * The component: the path defaults to "/", nothing renders when the fetch failed or
   * selected no block, otherwise one section per selected block, in order.
   */
  function Render(ans: Fetched<seq<Row<Block>>>, path: Option<string>): (r: Option<seq<Section>>)
    ensures r.None? <==> ans.FetchFailed? || ans.value == []
    ensures r.Some? ==> var blocks := FetchBlocks(ans, path.OrElse("/"));
      |r.value| == |blocks| && forall i :: 0 <= i < |blocks| ==> r.value[i] == SectionOf(blocks[i].block)
  {
    var blocks := FetchBlocks(ans, path.OrElse("/"));
    if blocks == [] then None else Some(Sections(blocks))
  }

  /** One section per block, in order. */
  function Sections(blocks: seq<Row<Block>>): (r: seq<Section>)
    ensures |r| == |blocks| && forall i :: 0 <= i < |blocks| ==> r[i] == SectionOf(blocks[i].block)
  {
    seq(|blocks|, i requires 0 <= i < |blocks| => SectionOf(blocks[i].block))
  }
}
