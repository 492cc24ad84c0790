/**
 * The "title, description, cards in columns" block: a tolerant list fetch, and per block a
 * left column with title and intro and a right grid of grey cards.
 */
module TitleDescriptionCardsColumns {
  import opened Common
  import opened BlockKit

  /** A grey card: each part is drawn only when it is not empty. */
  datatype GreyCard = GreyCard(caption: string, title: string, text: string)

  /** The fields of one block the component reads (absent text fields read as ""). */
  datatype Block = Block(title: Option<Formatted>, body: string, cards: Multi<GreyCard>)

  /** `fetchBlocks`: the tolerant list fetch; a failure gives no rows. */
  function FetchBlocks(ans: Fetched<seq<Row<Block>>>, path: string): (r: seq<Row<Block>>)
    ensures ans.FetchFailed? ==> r == []
    ensures ans.Fetched? && path != "" ==> r == TolerantFilter(ans.value, path)
    ensures ans.Fetched? && path == "" ==> r == ans.value
    ensures r == [] <==> ans.FetchFailed? || ans.value == []
  {
    FetchList(ans, path)
  }

  /** What one block renders as. */
  datatype Section = Section(title: string, body: string, cards: seq<GreyCard>)

  /** Cards are drawn only from a list value. */
  function SectionOf(b: Block): (s: Section)
    ensures b.cards.Many? ==> s.cards == b.cards.items
    ensures !b.cards.Many? ==> s.cards == []
    ensures s.title == TextOr(b.title, "") && s.body == b.body
  {
    Section(TextOr(b.title, ""), b.body, if b.cards.Many? then b.cards.items else [])
  }

  /**
   * The component: the path defaults to "/", nothing renders when the fetch failed or
   * selected no block, otherwise one section per selected block, in order.
   */
  function Render(ans: Fetched<seq<Row<Block>>>, path: Option<string>): (r: Option<seq<Section>>)
    ensures r.None? <==> ans.FetchFailed? || ans.value == []
    ensures r.Some? ==> var blocks := FetchBlocks(ans, path.OrElse("/"));
      |r.value| == |blocks| && forall i :: 0 <= i < |blocks| ==> r.value[i] == SectionOf(blocks[i].block)
  {
    var blocks := FetchBlocks(ans, path.OrElse("/"));
    if blocks == [] then None else Some(Sections(blocks))
  }

  /** One section per block, in order. */
  function Sections(blocks: seq<Row<Block>>): (r: seq<Section>)
    ensures |r| == |blocks| && forall i :: 0 <= i < |blocks| ==> r[i] == SectionOf(blocks[i].block)
  {
    seq(|blocks|, i requires 0 <= i < |blocks| => SectionOf(blocks[i].block))
  }

  /** When no row's path matches, every fetched block gets a section: the filter falls back. */
  lemma NoMatchShowsEveryBlock(rows: seq<Row<Block>>, path: string)
    requires path != "" && rows != []
    requires forall i :: 0 <= i < |rows| ==> !RowMatches(rows[i], Norm(Some(path)))
    ensures var r := Render(Fetched(rows), Some(path));
      r.Some? && |r.value| == |rows| && forall i :: 0 <= i < |rows| ==> r.value[i] == SectionOf(rows[i].block)
  {
    assert forall x :: x in rows ==> !RowMatches(x, Norm(Some(path)));
  }
}
