/**
 * The title/text/card block: an exact `field_path` filter with no error handling, two
 * positional call-to-action slots on the left, one on the right, and cards whose
 * descriptions render as bullet lines.
 */
module TitleTextCard {
  import opened Common
  import opened Text
  import opened BlockKit

  /** A card entry: absent title and description read as "". */
  datatype Card = Card(title: string, description: string)

  /** The fields of one block the component reads. */
  datatype Block = Block(
    title: Option<Formatted>,
    body: string,
    cards: Multi<Card>,
    cardLinks: Multi<Option<RawLink>>,
    links: Multi<Option<RawLink>>)

  /** `fetchBlocks`: only the uuid goes to the API; a failure propagates; then the exact filter. */
  function FetchBlocks(ans: Fetched<seq<Row<Block>>>, path: string): (r: Fetched<seq<Row<Block>>>)
    ensures r.FetchFailed? <==> ans.FetchFailed?
    ensures r.Fetched? ==> forall x :: x in r.value <==> x in ans.value && x.fieldPath == Some(path)
  {
    FetchExact(ans, path)
  }

  /** `list?.[i] ? linkFromDrupal(list[i]) : null`: a positional slot; only an array has entries. */
  function Slot(links: Multi<Option<RawLink>>, i: nat): (r: Option<Link>)
    ensures r.Some? ==> links.Many? && i < |links.items| && r == LinkFromDrupal(links.items[i])
    ensures links.Many? && i < |links.items| ==> r == LinkFromDrupal(links.items[i])
  {
    if links.Many? then LinkFromDrupal(Nth(links.items, i)) else None
  }

  /** A rendered card: its heading and the bullet lines of its description. */
  datatype CardView = CardView(title: string, lines: seq<string>)

  /** A card's description split on CRLF or LF, each line trimmed, blank lines dropped. */
  function CardOf(c: Card): (v: CardView)
    ensures v.title == c.title && v.lines == TrimmedLines(c.description)
    ensures forall i :: 0 <= i < |v.lines| ==> v.lines[i] != "" && IsTrimmed(v.lines[i])
  {
    CardView(c.title, TrimmedLines(c.description))
  }

  /** Lines written one per row come back as the card's bullets, unchanged and in order. */
  lemma CardLinesRoundTrip(title: string, xs: seq<string>)
    requires forall i :: 0 <= i < |xs| ==> xs[i] != "" && IsTrimmed(xs[i]) && '\n' !in xs[i]
    ensures CardOf(Card(title, Join(xs, '\n'))).lines == xs
  {
    TrimmedLinesOfJoin(xs);
  }

  /** What one block renders as. */
  datatype Section = Section(
    title: string, body: string,
    primaryLeft: Option<Link>, secondaryLeft: Option<Link>, showLeftActions: bool,
    cards: seq<CardView>, rightCta: Option<Link>)

  /**
   * One block's section: the left slots are entries 0 and 1 of `field_links`, the right
   * slot entry 0 of `field_card_links`; the left row shows iff one of its slots is
   * filled; cards render only from an array.
   */
  function SectionOf(b: Block): (s: Section)
    ensures s.title == TextOr(b.title, "") && s.body == b.body
    ensures s.primaryLeft == Slot(b.links, 0) && s.secondaryLeft == Slot(b.links, 1)
    ensures s.rightCta == Slot(b.cardLinks, 0)
    ensures s.showLeftActions <==> s.primaryLeft.Some? || s.secondaryLeft.Some?
    ensures !b.cards.Many? ==> s.cards == []
    ensures b.cards.Many? ==> (|s.cards| == |b.cards.items|
      && forall i :: 0 <= i < |s.cards| ==> s.cards[i] == CardOf(b.cards.items[i]))
  {
    var p := Slot(b.links, 0);
    var q := Slot(b.links, 1);
    var cards := if b.cards.Many? then seq(|b.cards.items|, i requires 0 <= i < |b.cards.items| => CardOf(b.cards.items[i])) else [];
    Section(TextOr(b.title, ""), b.body, p, q, p.Some? || q.Some?, cards, Slot(b.cardLinks, 0))
  }

  /**
   * The component: the path defaults to "/"; a failure propagates; no selected block
   * renders nothing; otherwise one section per selected block, in order.
   */
  function Render(ans: Fetched<seq<Row<Block>>>, path: Option<string>): (r: Fetched<Option<seq<Section>>>)
    ensures r.FetchFailed? <==> ans.FetchFailed?
    ensures r.Fetched? ==> var blocks := FetchBlocks(ans, path.OrElse("/")).value;
      (r.value.None? <==> blocks == [])
      && (r.value.Some? ==> (|r.value.value| == |blocks|
          && forall i :: 0 <= i < |blocks| ==> r.value.value[i] == SectionOf(blocks[i].block)))
  {
    match FetchBlocks(ans, path.OrElse("/"))
    case FetchFailed => FetchFailed
    case Fetched(blocks) =>
      if blocks == [] then Fetched(None)
      else Fetched(Some(seq(|blocks|, i requires 0 <= i < |blocks| => SectionOf(blocks[i].block))))
  }

  /** A link beyond the second never reaches the left column. */
  lemma LaterLinksIgnored(b: Block, extra: seq<Option<RawLink>>)
    requires b.links.Many? && |b.links.items| >= 2
    ensures var b2 := b.(links := Many(b.links.items + extra));
      SectionOf(b2).primaryLeft == SectionOf(b).primaryLeft
      && SectionOf(b2).secondaryLeft == SectionOf(b).secondaryLeft
  {
    var xs := b.links.items;
    assert (xs + extra)[0] == xs[0] && (xs + extra)[1] == xs[1];
  }
}
