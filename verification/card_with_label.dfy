/**
 * The card-with-label block: a single-block fetch with no default path and a grid of
 * labelled cards; nothing renders when the card field is not a non-empty array.
 */
module CardWithLabel {
  import opened Common
  import opened BlockKit

  /** A card entry: absent strings read as "". */
  datatype Card = Card(eyebrow: string, title: string, description: string, linkUri: Option<string>, linkTitle: string)

  /** The fields of the block the component reads. */
  datatype Block = Block(title: Option<Formatted>, cards: Multi<Card>)

  /** `fetchBlock`: nothing for no rows or a failure, else the filtered head or the newest row. */
  function FetchBlock(ans: Fetched<seq<Row<Block>>>, path: string): (r: Option<Row<Block>>)
    ensures r.None? <==> ans.FetchFailed? || ans.value == []
    ensures r.Some? && path == "" ==> r.value == ans.value[0]
    ensures r.Some? ==> r.value in ans.value
    ensures r.Some? && path != "" ==> var m := Matching(ans.value, Norm(Some(path)));
      r.value == (if m != [] then m[0] else ans.value[0])
  {
    FetchFilteredHead(ans, path)
  }

  /** A rendered card: its texts, its link target and flag, and whether the link shows. */
  datatype CardView = CardView(eyebrow: string, title: string, description: string,
                               href: string, isExternal: bool, showLink: bool, linkText: string)

  /** The link shows iff `toLink` gives a non-empty href; its text defaults to "Learn more". */
  function CardOf(c: Card): (v: CardView)
    ensures v.eyebrow == c.eyebrow && v.title == c.title && v.description == c.description
    ensures (v.href, v.isExternal) == ToLink(c.linkUri)
    ensures v.showLink <==> c.linkUri.Some? && c.linkUri.value != ""
    ensures v.linkText == (if c.linkTitle != "" then c.linkTitle else "Learn more")
  {
    var (href, ext) := ToLink(c.linkUri);
    CardView(c.eyebrow, c.title, c.description, href, ext, href != "",
             if c.linkTitle != "" then c.linkTitle else "Learn more")
  }

  /** What the block renders as. */
  datatype View = View(title: string, cards: seq<CardView>)

  /**
   * The component: the path is passed through unset when absent; nothing renders without
   * a block or when its cards are not a non-empty array.
   */
  function Render(ans: Fetched<seq<Row<Block>>>, path: Option<string>): (r: Option<View>)
    ensures r.Some? <==> (FetchBlock(ans, path.OrElse("")).Some?
      && FetchBlock(ans, path.OrElse("")).value.block.cards.Many?
      && FetchBlock(ans, path.OrElse("")).value.block.cards.items != [])
    ensures r.Some? ==> r.value.title == TextOr(FetchBlock(ans, path.OrElse("")).value.block.title, "")
    ensures r.Some? ==> var cs := FetchBlock(ans, path.OrElse("")).value.block.cards.items;
      |r.value.cards| == |cs| && forall i :: 0 <= i < |cs| ==> r.value.cards[i] == CardOf(cs[i])
  {
    match FetchBlock(ans, path.OrElse(""))
    case None => None
    case Some(row) =>
      var b := row.block;
      if !b.cards.Many? || b.cards.items == [] then None
      else
        var cs := b.cards.items;
        Some(View(TextOr(b.title, ""), seq(|cs|, i requires 0 <= i < |cs| => CardOf(cs[i]))))
  }
}
