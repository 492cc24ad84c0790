/**
 * The grey list of cards block: a tolerant list fetch, and per block a heading, an intro
 * and a grid of cards whose fields accept several spellings.
 */
module GreyListOfCards {
  import opened Common
  import opened BlockKit

  /**
   * A card as stored: each property may be absent (`None`), and a present property wins
   * over the later spellings even when it is empty.
   */
  datatype RawCard = RawCard(lowerLabel: Option<string>, upperLabel: Option<string>,
                             lowerTitle: Option<string>, upperTitle: Option<string>,
                             text: Option<string>, description: Option<string>,
                             upperDescription: Option<string>)

  /** The fields of one block the component reads (absent text fields read as ""). */
  datatype Block = Block(title: Option<Formatted>, body: string, cards: Multi<RawCard>)

  /** `fetchBlocks`: the tolerant list fetch; a failure gives no rows. */
  function FetchBlocks(ans: Fetched<seq<Row<Block>>>, path: string): (r: seq<Row<Block>>)
    ensures ans.FetchFailed? ==> r == []
    ensures ans.Fetched? && path != "" ==> r == TolerantFilter(ans.value, path)
    ensures ans.Fetched? && path == "" ==> r == ans.value
    ensures r == [] <==> ans.FetchFailed? || ans.value == []
  {
    FetchList(ans, path)
  }

  /** `a ?? b ?? … ?? d`: the first present value, else the default. */
  function Coalesce(xs: seq<Option<string>>, d: string): (r: string)
    ensures (forall i :: 0 <= i < |xs| ==> xs[i].None?) ==> r == d
    ensures forall i :: 0 <= i < |xs| && xs[i].Some? && (forall j :: 0 <= j < i ==> xs[j].None?) ==> r == xs[i].value
  {
    if xs == [] then d
    else if xs[0].Some? then xs[0].value
    else Coalesce(xs[1..], d)
  }

  /** A coalesced value is one of the present values or the default. */
  lemma {:induction false} CoalesceFrom(xs: seq<Option<string>>, d: string)
    ensures Coalesce(xs, d) == d || Some(Coalesce(xs, d)) in xs
  {
    if xs != [] && xs[0].None? {
      var rest := xs[1..];
      var r := Coalesce(rest, d);
      assert Coalesce(xs, d) == r;
      CoalesceFrom(rest, d);
      if r != d {
        var k :| 0 <= k < |rest| && rest[k] == Some(r);
        assert xs[k + 1] == Some(r);
      }
    }
  }

  /** A rendered card; each part is drawn only when it is not empty. */
  datatype CardView = CardView(caption: string, title: string, text: string)

  /** The field fallbacks: label, then Label; title, then Title; text, then description, then Description. */
  function CardOf(c: RawCard): (v: CardView)
    ensures v.caption == Coalesce([c.lowerLabel, c.upperLabel], "")
    ensures v.title == Coalesce([c.lowerTitle, c.upperTitle], "")
    ensures v.text == Coalesce([c.text, c.description, c.upperDescription], "")
  {
    CardView(Coalesce([c.lowerLabel, c.upperLabel], ""),
             Coalesce([c.lowerTitle, c.upperTitle], ""),
             Coalesce([c.text, c.description, c.upperDescription], ""))
  }

  /** An empty `text` is kept: it hides the description rather than falling back to it. */
  lemma EmptyTextHidesDescription(c: RawCard)
    requires c.text == Some("") && c.description.Some?
    ensures CardOf(c).text == ""
  {
    var xs := [c.text, c.description, c.upperDescription];
    assert xs[0] == Some("");
  }

  /** What one block renders as. */
  datatype Section = Section(title: string, body: string, cards: seq<CardView>)

  /** Cards are drawn only from a list value; a missing field reads as the empty list. */
  function SectionOf(b: Block): (s: Section)
    ensures b.cards.Many? ==> (|s.cards| == |b.cards.items| &&
      forall i :: 0 <= i < |s.cards| ==> s.cards[i] == CardOf(b.cards.items[i]))
    ensures !b.cards.Many? ==> s.cards == []
    ensures s.title == TextOr(b.title, "") && s.body == b.body
  {
    var cs := if b.cards.Many? then b.cards.items else [];
    Section(TextOr(b.title, ""), b.body, seq(|cs|, i requires 0 <= i < |cs| => CardOf(cs[i])))
  }

  /**
   * The component: the path defaults to "/", nothing renders when the fetch failed or
   * selected no block, otherwise one section per selected block, in order.
   */
  function Render(ans: Fetched<seq<Row<Block>>>, path: Option<string>): (r: Option<seq<Section>>)
    ensures r.None? <==> ans.FetchFailed? || ans.value == []
    ensures r.Some? ==> var blocks := FetchBlocks(ans, path.OrElse("/"));
      |r.value| == |blocks| && forall i :: 0 <= i < |blocks| ==> r.value[i] == SectionOf(blocks[i].block)
  {
    var blocks := FetchBlocks(ans, path.OrElse("/"));
    if blocks == [] then None else Some(Sections(blocks))
  }

  /** One section per block, in order. */
  function Sections(blocks: seq<Row<Block>>): (r: seq<Section>)
    ensures |r| == |blocks| && forall i :: 0 <= i < |blocks| ==> r[i] == SectionOf(blocks[i].block)
  {
    seq(|blocks|, i requires 0 <= i < |blocks| => SectionOf(blocks[i].block))
  }
}
