/**
 * The "title, description, cards" block: a tolerant list fetch, and per block a heading,
 * an intro and a grid of title/description cards.
 */
module TitleDescriptionCards {
  import opened Common
  import opened BlockKit

  /** A card: each part is drawn only when it is not empty. */
  datatype Card = Card(title: string, description: string)

  /** The fields of one block the component reads (absent text fields read as ""). */
  datatype Block = Block(title: Option<Formatted>, body: string, cards: Multi<Card>)

  /** `fetchBlocks`: the tolerant list fetch; a failure gives no rows. */
  function FetchBlocks(ans: Fetched<seq<Row<Block>>>, path: string): (r: seq<Row<Block>>)
    ensures ans.FetchFailed? ==> r == []
    ensures ans.Fetched? && path != "" ==> r == TolerantFilter(ans.value, path)
    ensures ans.Fetched? && path == "" ==> r == ans.value
    ensures r == [] <==> ans.FetchFailed? || ans.value == []
  {
    FetchList(ans, path)
  }

  /** What one block renders as. */
  datatype Section = Section(title: string, body: string, cards: seq<Card>)

  /** Cards are drawn only from a non-empty list value. */
  function SectionOf(b: Block): (s: Section)
    ensures b.cards.Many? ==> s.cards == b.cards.items
    ensures !b.cards.Many? ==> s.cards == []
    ensures s.title == TextOr(b.title, "") && s.body == b.body
  {
    Section(TextOr(b.title, ""), b.body, if b.cards.Many? then b.cards.items else [])
  }

  /**
   * The component: the path defaults to "/", nothing renders when the fetch failed or
   * selected no block, otherwise one section per selected block, in order.
   */
  function Render(ans: Fetched<seq<Row<Block>>>, path: Option<string>): (r: Option<seq<Section>>)
    ensures r.None? <==> ans.FetchFailed? || ans.value == []
    ensures r.Some? ==> var blocks := FetchBlocks(ans, path.OrElse("/"));
      |r.value| == |blocks| && forall i :: 0 <= i < |blocks| ==> r.value[i] == SectionOf(blocks[i].block)
  {
    var blocks := FetchBlocks(ans, path.OrElse("/"));
    if blocks == [] then None else Some(Sections(blocks))
  }

  /** One section per block, in order. */
  function Sections(blocks: seq<Row<Block>>): (r: seq<Section>)
    ensures |r| == |blocks| && forall i :: 0 <= i < |blocks| ==> r[i] == SectionOf(blocks[i].block)
  {
    seq(|blocks|, i requires 0 <= i < |blocks| => SectionOf(blocks[i].block))
  }

  /** With a path, the blocks shown are exactly the matching rows when at least one matches. */
  lemma MatchingRowsShown(rows: seq<Row<Block>>, path: string, k: nat)
    requires path != "" && k < |rows| && RowMatches(rows[k], Norm(Some(path)))
    ensures forall x :: x in FetchBlocks(Fetched(rows), path) <==> x in rows && RowMatches(x, Norm(Some(path)))
  {
    assert rows[k] in rows;
  }
}
