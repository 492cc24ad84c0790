/**
 * The hero stack block: a tolerant single-block fetch, a label pill, title and two body
 * paragraphs, and calls to action taken by position (primary, secondary) and then the
 * rest of the valid links.
 */
module HeroStack {
  import opened Common
  import opened BlockKit

  /** The fields of the block the component reads (absent text fields read as ""). */
  datatype Block = Block(pill: string, title: Option<Formatted>, body: string, second: string,
                         links: seq<Option<RawLink>>)

  /** `fetchBlock`: the tolerant single pick; a failure gives nothing. */
  function FetchBlock(ans: Fetched<seq<Row<Block>>>, path: string): (r: Option<Row<Block>>)
    ensures r.None? <==> ans.FetchFailed? || ans.value == []
    ensures r.Some? && path == "" ==> r.value == ans.value[0]
    ensures r.Some? ==> r.value in ans.value
    ensures r.Some? && path != "" ==> var m := Matching(ans.value, Norm(Some(path)));
      r.value == (if m != [] then m[0] else ans.value[0])
  {
    FetchOne(ans, path)
  }

  /** What the block renders as. */
  datatype Hero = Hero(pill: string, title: string, body: string, second: string,
                       primary: Option<Link>, secondary: Option<Link>, rest: seq<Link>, showCtas: bool)

  function AsList(o: Option<Link>): seq<Link> {
    if o.Some? then [o.value] else []
  }

  /**
   * The hero of one block: primary and secondary are the entries at positions 0 and 1
   * (possibly invalid, then absent), rest the valid entries from position 2 on, and the
   * CTA row shows iff any of them exists.
   */
  function HeroOf(b: Block): (h: Hero)
    ensures h.pill == b.pill && h.title == TextOr(b.title, "") && h.body == b.body && h.second == b.second
    ensures h.primary == LinkFromDrupal(Nth(b.links, 0)) && h.secondary == LinkFromDrupal(Nth(b.links, 1))
    ensures |b.links| >= 2 ==> h.rest == ParsedLinks(b.links[2..])
    ensures |b.links| < 2 ==> h.rest == []
    ensures h.showCtas <==> h.primary.Some? || h.secondary.Some? || h.rest != []
  {
    var primary := LinkFromDrupal(Nth(b.links, 0));
    var secondary := LinkFromDrupal(Nth(b.links, 1));
    var rest := if |b.links| >= 2 then ParsedLinks(b.links[2..]) else [];
    Hero(b.pill, TextOr(b.title, ""), b.body, b.second, primary, secondary, rest,
         primary.Some? || secondary.Some? || rest != [])
  }

  /** The CTAs shown, in order, are exactly the valid links of the field: nothing is lost or duplicated. */
  lemma CtasAreParsedLinks(b: Block)
    ensures var h := HeroOf(b); AsList(h.primary) + AsList(h.secondary) + h.rest == ParsedLinks(b.links)
  {
    var xs := b.links;
    var h := HeroOf(b);
    if |xs| >= 2 {
      ParsedLinksCons(xs);
      ParsedLinksCons(xs[1..]);
      assert xs[1..][1..] == xs[2..];
      AppendAssoc(AsList(h.primary), AsList(h.secondary), h.rest);
    } else if |xs| == 1 {
      ParsedLinksCons(xs);
      assert xs[1..] == [];
    }
  }

  /** The valid links of a field: those of its first entry, then those of the rest. */
  lemma ParsedLinksCons(xs: seq<Option<RawLink>>)
    requires xs != []
    ensures ParsedLinks(xs) == AsList(LinkFromDrupal(xs[0])) + ParsedLinks(xs[1..])
  {
  }

  /** The CTA row shows exactly when the link field holds at least one valid link. */
  lemma CtaRowIffValidLink(b: Block)
    ensures HeroOf(b).showCtas <==> ParsedLinks(b.links) != []
  {
    CtasAreParsedLinks(b);
  }

  /** The component: the path defaults to "/"; nothing renders without a block. */
  function Render(ans: Fetched<seq<Row<Block>>>, path: Option<string>): (r: Option<Hero>)
    ensures r.None? <==> ans.FetchFailed? || ans.value == []
    ensures r.Some? ==> r.value == HeroOf(FetchBlock(ans, path.OrElse("/")).value.block)
  {
    match FetchBlock(ans, path.OrElse("/"))
    case None => None
    case Some(row) => Some(HeroOf(row.block))
  }
}
