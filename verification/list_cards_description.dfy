/**
 * The list-cards-with-description block: a tolerant single-block fetch, a title and body
 * on the left, and up to a grid of badge cards on the right.
 */
module ListCardsDescription {
  import opened Common
  import opened Text
  import opened BlockKit

  /** A card entry: absent title and description read as "". */
  datatype Card = Card(title: string, description: string)

  /** The fields of the block the component reads. */
  datatype Block = Block(title: Option<Formatted>, body: string, cards: Multi<Card>)

  /** `fetchBlock`: `find(matches) ?? list[0]`; a failure gives nothing. */
  function FetchBlock(ans: Fetched<seq<Row<Block>>>, path: string): (r: Option<Row<Block>>)
    ensures r.None? <==> ans.FetchFailed? || ans.value == []
    ensures r.Some? && path == "" ==> r.value == ans.value[0]
    ensures r.Some? && path != "" && (exists x :: x in ans.value && RowMatches(x, Norm(Some(path))))
      ==> RowMatches(r.value, Norm(Some(path)))
    ensures r.Some? && path != "" ==> var m := Matching(ans.value, Norm(Some(path)));
      r.value == (if m != [] then m[0] else ans.value[0])
  {
    FetchOne(ans, path)
  }

  /** A rendered card: badge and description, both trimmed. */
  datatype CardView = CardView(badge: string, description: string)

  function CardOf(c: Card): (v: CardView)
    ensures v.badge == Trim(c.title) && v.description == Trim(c.description)
    ensures IsTrimmed(v.badge) && IsTrimmed(v.description)
    ensures IsTrimmed(c.title) ==> v.badge == c.title
    ensures IsTrimmed(c.description) ==> v.description == c.description
  {
    assert IsTrimmed(c.title) ==> Trim(c.title) == c.title by {
      if IsTrimmed(c.title) { TrimOfTrimmed(c.title); }
    }
    assert IsTrimmed(c.description) ==> Trim(c.description) == c.description by {
      if IsTrimmed(c.description) { TrimOfTrimmed(c.description); }
    }
    CardView(Trim(c.title), Trim(c.description))
  }

  /** What the block renders as. */
  datatype View = View(title: string, body: string, cards: seq<CardView>)

  /** Cards render only when the field holds an array. */
  function ViewOf(b: Block): (v: View)
    ensures v.title == TextOr(b.title, "") && v.body == b.body
    ensures !b.cards.Many? ==> v.cards == []
    ensures b.cards.Many? ==> (|v.cards| == |b.cards.items|
      && forall i :: 0 <= i < |v.cards| ==> v.cards[i] == CardOf(b.cards.items[i]))
  {
    var cards := if b.cards.Many? then seq(|b.cards.items|, i requires 0 <= i < |b.cards.items| => CardOf(b.cards.items[i])) else [];
    View(TextOr(b.title, ""), b.body, cards)
  }

  /** The component: the path defaults to "/"; nothing renders without a block. */
  function Render(ans: Fetched<seq<Row<Block>>>, path: Option<string>): (r: Option<View>)
    ensures r.None? <==> ans.FetchFailed? || ans.value == []
    ensures r.Some? ==> r.value == ViewOf(FetchBlock(ans, path.OrElse("/")).value.block)
  {
    match FetchBlock(ans, path.OrElse("/"))
    case None => None
    case Some(row) => Some(ViewOf(row.block))
  }

  /** Rendering a view's own (already trimmed) cards again gives the same cards. */
  lemma CardsStable(b: Block)
    requires b.cards.Many?
    ensures var cs := ViewOf(b).cards;
      ViewOf(b.(cards := Many(seq(|cs|, i requires 0 <= i < |cs| => Card(cs[i].badge, cs[i].description))))).cards == cs
  {
  }
}
