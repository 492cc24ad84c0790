/**
 * The stack overview block: a single-block fetch with no default path, a header with an
 * optional hint, and a grid of cards that are links exactly when their target normalises.
 */
module StackOverviewCards {
  import opened Common
  import opened Text
  import opened BlockKit

  /** A card entry: absent strings read as "". */
  datatype Card = Card(title: string, description: string, linkUri: Option<string>, linkTitle: string)

  /** The fields of the block the component reads. */
  datatype Block = Block(title: Option<Formatted>, headerHint: string, cards: Multi<Card>)

  /** `fetchBlock`: nothing for no rows or a failure, else the filtered head or the newest row. */
  function FetchBlock(ans: Fetched<seq<Row<Block>>>, path: string): (r: Option<Row<Block>>)
    ensures r.None? <==> ans.FetchFailed? || ans.value == []
    ensures r.Some? && path == "" ==> r.value == ans.value[0]
    ensures r.Some? ==> r.value in ans.value
    ensures r.Some? && path != "" ==> var m := Matching(ans.value, Norm(Some(path)));
      r.value == (if m != [] then m[0] else ans.value[0])
  {
    FetchFilteredHead(ans, path)
  }

  /** A rendered card: trimmed title and description, and whether (and where) it links. */
  datatype CardView = CardView(title: string, description: string, isLink: bool, link: CardLink)

  function CardOf(c: Card): (v: CardView)
    ensures v.title == Trim(c.title) && v.description == Trim(c.description)
    ensures IsTrimmed(v.title) && IsTrimmed(v.description)
    ensures v.link == CardLinkOf(c.linkUri, c.linkTitle)
    ensures v.isLink <==> c.linkUri.Some? && Trim(c.linkUri.value) != ""
  {
    var link := CardLinkOf(c.linkUri, c.linkTitle);
    CardView(Trim(c.title), Trim(c.description), link.href.Some?, link)
  }

  /** What the block renders as. */
  datatype View = View(title: string, hint: string, showHint: bool, cards: seq<CardView>)

  /** The hint shows only when non-empty; cards render only from an array. */
  function ViewOf(b: Block): (v: View)
    ensures v.title == TextOr(b.title, "") && v.hint == b.headerHint
    ensures v.showHint <==> b.headerHint != ""
    ensures !b.cards.Many? ==> v.cards == []
    ensures b.cards.Many? ==> (|v.cards| == |b.cards.items|
      && forall i :: 0 <= i < |v.cards| ==> v.cards[i] == CardOf(b.cards.items[i]))
  {
    var cards := if b.cards.Many? then seq(|b.cards.items|, i requires 0 <= i < |b.cards.items| => CardOf(b.cards.items[i])) else [];
    View(TextOr(b.title, ""), b.headerHint, b.headerHint != "", cards)
  }

  /** The component: the path is passed through unset when absent; nothing renders without a block. */
  function Render(ans: Fetched<seq<Row<Block>>>, path: Option<string>): (r: Option<View>)
    ensures r.None? <==> ans.FetchFailed? || ans.value == []
    ensures r.Some? ==> r.value == ViewOf(FetchBlock(ans, path.OrElse("")).value.block)
  {
    match FetchBlock(ans, path.OrElse(""))
    case None => None
    case Some(row) => Some(ViewOf(row.block))
  }

  /** A trimmed, non-empty link value makes the card a link to that value with any "internal:" scheme stripped. */
  lemma TrimmedCardLinks(c: Card, u: string)
    requires c.linkUri == Some(u) && u != "" && Trim(u) == u
    ensures CardOf(c).isLink && CardOf(c).link.href == Some(StripInternal(u))
  {
    NormalizeTrimmed(u);
  }
}
