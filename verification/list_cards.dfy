/**
 * The list-cards block: an exact `field_path` filter with no error handling, a grid of
 * badge cards, and a row of underlined links.
 */
module ListCards {
  import opened Common
  import opened Text
  import opened BlockKit

  /** A card entry: absent title and description read as "". */
  datatype Card = Card(title: string, description: string)

  /** The fields of one block the component reads. */
  datatype Block = Block(title: Option<Formatted>, cards: Multi<Card>, links: Multi<Option<RawLink>>)

  /** `fetchBlocks`: no path filter is sent; a failure propagates; then the exact filter. */
  function FetchBlocks(ans: Fetched<seq<Row<Block>>>, path: string): (r: Fetched<seq<Row<Block>>>)
    ensures r.FetchFailed? <==> ans.FetchFailed?
    ensures r.Fetched? ==> forall x :: x in r.value <==> x in ans.value && x.fieldPath == Some(path)
  {
    FetchExact(ans, path)
  }

  /** A rendered card: the badge is the title, the description is trimmed. */
  datatype CardView = CardView(badge: string, description: string)

  function CardOf(c: Card): (v: CardView)
    ensures v.badge == c.title
    ensures v.description == Trim(c.description)
    ensures IsTrimmed(v.description) && |v.description| <= |c.description|
  {
    CardView(c.title, Trim(c.description))
  }

  /**
   * `(Array.isArray(raw) ? raw : [raw]).map(linkFromDrupal).filter(Boolean)` with
   * `raw = field_links ?? []`: a single entry is wrapped, invalid entries are dropped.
   */
  function LinkItems(raw: Multi<Option<RawLink>>): (r: seq<Link>)
    ensures raw.NoValue? ==> r == []
    ensures raw.Single? ==> r == (if LinkFromDrupal(raw.item).Some? then [LinkFromDrupal(raw.item).value] else [])
    ensures raw.Many? ==> r == ParsedLinks(raw.items)
  {
    var xs := ReadList(raw);
    if raw.Single? then
      assert xs[1..] == [];
      ParsedLinks(xs)
    else ParsedLinks(xs)
  }

  /** What one block renders as. */
  datatype Section = Section(title: string, cards: seq<CardView>, links: seq<Link>)

  function SectionOf(b: Block): (s: Section)
    ensures s.title == TextOr(b.title, "")
    ensures s.links == LinkItems(b.links)
    ensures !b.cards.Many? ==> s.cards == []
    ensures b.cards.Many? ==> (|s.cards| == |b.cards.items|
      && forall i :: 0 <= i < |s.cards| ==> s.cards[i] == CardOf(b.cards.items[i]))
  {
    var cards := if b.cards.Many? then seq(|b.cards.items|, i requires 0 <= i < |b.cards.items| => CardOf(b.cards.items[i])) else [];
    Section(TextOr(b.title, ""), cards, LinkItems(b.links))
  }

  /**
   * The component: the path defaults to "/"; a failure propagates; no selected block
   * renders nothing; otherwise one section per selected block, in order.
   */
  function Render(ans: Fetched<seq<Row<Block>>>, path: Option<string>): (r: Fetched<Option<seq<Section>>>)
    ensures r.FetchFailed? <==> ans.FetchFailed?
    ensures r.Fetched? ==> var blocks := FetchBlocks(ans, path.OrElse("/")).value;
      (r.value.None? <==> blocks == [])
      && (r.value.Some? ==> (|r.value.value| == |blocks|
          && forall i :: 0 <= i < |blocks| ==> r.value.value[i] == SectionOf(blocks[i].block)))
  {
    match FetchBlocks(ans, path.OrElse("/"))
    case FetchFailed => FetchFailed
    case Fetched(blocks) =>
      if blocks == [] then Fetched(None)
      else Fetched(Some(seq(|blocks|, i requires 0 <= i < |blocks| => SectionOf(blocks[i].block))))
  }

  /** Appending entries to the link list appends their valid links after the existing ones. */
  lemma MoreLinksAppend(xs: seq<Option<RawLink>>, ys: seq<Option<RawLink>>)
    ensures LinkItems(Many(xs + ys)) == LinkItems(Many(xs)) + LinkItems(Many(ys))
  {
    ParsedLinksAppend(xs, ys);
  }
}
