/**
 * The title/description/cards/text block: a single-block fetch with no default path, an
 * intro from the body summary, a grid of link cards, and a sidebar with the second body and
 * one call to action taken from the first link entry.
 */
module TitleDescriptionCardsText {
  import opened Common
  import opened Text
  import opened BlockKit

  /** A card entry: absent strings read as "". */
  datatype CardItem = CardItem(eyebrow: string, title: string, description: string, linkUri: Option<string>, linkTitle: string)

  /** A plain link entry. */
  datatype LinkItem = LinkItem(uri: Option<string>, title: string)

  /** The body field: its summary and processed text (absent reads as ""). */
  datatype Body = Body(summary: string, processed: string)

  /** The fields of the block the component reads. */
  datatype Block = Block(title: Option<Formatted>, body: Body, secondBody: string,
                         cards: Multi<CardItem>, links: Multi<LinkItem>)

  /** `fetchBlock`: nothing for no rows or a failure, else the filtered head or the newest row. */
  function FetchBlock(ans: Fetched<seq<Row<Block>>>, path: string): (r: Option<Row<Block>>)
    ensures r.None? <==> ans.FetchFailed? || ans.value == []
    ensures r.Some? && path == "" ==> r.value == ans.value[0]
    ensures r.Some? ==> r.value in ans.value
    ensures r.Some? && path != "" ==> var m := Matching(ans.value, Norm(Some(path)));
      r.value == (if m != [] then m[0] else ans.value[0])
  {
    FetchFilteredHead(ans, path)
  }

  /** `summary || processed`: the intro prefers the summary. */
  function Intro(b: Body): (r: string)
    ensures b.summary != "" ==> r == b.summary
    ensures b.summary == "" ==> r == b.processed
    ensures r == "" <==> b.summary == "" && b.processed == ""
  {
    if b.summary != "" then b.summary else b.processed
  }

  /** The sidebar call to action: where it points and what it says. */
  datatype Cta = Cta(href: string, text: string)

  /**
   * From `links[0]`: shown only when its normalised href exists; the text is the trimmed
   * title, or "Learn more →" when that is empty.
   */
  function PrimaryCta(links: seq<LinkItem>): (r: Option<Cta>)
    ensures r.Some? <==> links != [] && NormalizeLink(links[0].uri).Some?
    ensures r.Some? ==> r.value.href == NormalizeLink(links[0].uri).value
    ensures r.Some? ==> r.value.text != ""
    ensures r.Some? && Trim(links[0].title) != "" ==> r.value.text == Trim(links[0].title)
    ensures r.Some? && Trim(links[0].title) == "" ==> r.value.text == "Learn more →"
  {
    if links == [] then None
    else
      match NormalizeLink(links[0].uri)
      case None => None
      case Some(href) =>
        var t := Trim(links[0].title);
        Some(Cta(href, if t != "" then t else "Learn more →"))
  }

  /** Only the first link entry matters for the sidebar. */
  lemma OnlyFirstLinkMatters(first: LinkItem, rest: seq<LinkItem>, other: seq<LinkItem>)
    ensures PrimaryCta([first] + rest) == PrimaryCta([first] + other)
  {
    assert ([first] + rest)[0] == first && ([first] + other)[0] == first;
  }

  /** A rendered card: trimmed eyebrow and title, the description, and its link part. */
  datatype CardView = CardView(eyebrow: string, title: string, description: string, link: CardLink)

  function CardOf(c: CardItem): (v: CardView)
    ensures v.eyebrow == Trim(c.eyebrow) && v.title == Trim(c.title)
    ensures IsTrimmed(v.eyebrow) && IsTrimmed(v.title) && v.description == c.description
    ensures v.link == CardLinkOf(c.linkUri, c.linkTitle)
  {
    CardView(Trim(c.eyebrow), Trim(c.title), c.description, CardLinkOf(c.linkUri, c.linkTitle))
  }

  /** What the block renders as. */
  datatype View = View(title: string, intro: string, sidebarHeading: string, secondBody: string,
                       cards: seq<CardView>, primary: Option<Cta>)

  /** `readCards` / `readLinks` feed the cards and the sidebar CTA. */
  function ViewOf(b: Block, sidebarHeading: string): (v: View)
    ensures v.title == TextOr(b.title, "") && v.secondBody == b.secondBody
    ensures v.sidebarHeading == sidebarHeading
    ensures v.intro == Intro(b.body) && v.primary == PrimaryCta(ReadList(b.links))
    ensures |v.cards| == |ReadList(b.cards)|
    ensures forall i :: 0 <= i < |v.cards| ==> v.cards[i] == CardOf(ReadList(b.cards)[i])
  {
    var cs := ReadList(b.cards);
    View(TextOr(b.title, ""), Intro(b.body), sidebarHeading, b.secondBody,
         seq(|cs|, i requires 0 <= i < |cs| => CardOf(cs[i])), PrimaryCta(ReadList(b.links)))
  }

  /**
   * The component: the path is passed through unset when absent, the sidebar heading
   * defaults to "Representative Missions", and nothing renders without a block.
   */
  function Render(ans: Fetched<seq<Row<Block>>>, path: Option<string>, sidebarHeading: Option<string>): (r: Option<View>)
    ensures r.None? <==> ans.FetchFailed? || ans.value == []
    ensures r.Some? && sidebarHeading.None? ==> r.value.sidebarHeading == "Representative Missions"
    ensures r.Some? && sidebarHeading.Some? ==> r.value.sidebarHeading == sidebarHeading.value
    ensures r.Some? ==> r.value == ViewOf(FetchBlock(ans, path.OrElse("")).value.block,
                                          sidebarHeading.OrElse("Representative Missions"))
  {
    match FetchBlock(ans, path.OrElse(""))
    case None => None
    case Some(row) => Some(ViewOf(row.block, sidebarHeading.OrElse("Representative Missions")))
  }
}
