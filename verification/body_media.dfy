/**
 * The body-and-media block: a tolerant list fetch, one two-column section per block, a
 * media card without a placeholder, and a row of link buttons.
 */
module BodyMedia {
  import opened Common
  import opened BlockKit

  /** The fields of one block the component reads (absent text fields read as ""). */
  datatype Block = Block(title: Option<Formatted>, body: string, media: Option<Media>, links: Multi<Option<RawLink>>)

  /** `fetchBlocks`: the tolerant list fetch. */
  function FetchBlocks(ans: Fetched<seq<Row<Block>>>, path: string): (r: seq<Row<Block>>)
    ensures ans.FetchFailed? ==> r == []
    ensures ans.Fetched? && path == "" ==> r == ans.value
    ensures ans.Fetched? && path != "" ==> r == TolerantFilter(ans.value, path)
  {
    FetchList(ans, path)
  }

  /** What one block renders as. */
  datatype Section = Section(title: string, body: string, media: MediaView, buttons: seq<Link>)

  /**
   * One block's section: missing media renders nothing (there is no placeholder here),
   * and the buttons are the valid links of an array, in order.
   */
  function SectionOf(base: string, b: Block): (s: Section)
    ensures b.media.None? ==> s.media == Nothing
    ensures s.media == RenderMedia(base, b.media, false, "Embedded media")
    ensures s.buttons == (if b.links.Many? then ParsedLinks(b.links.items) else [])
    ensures s.title == TextOr(b.title, "") && s.body == b.body
  {
    var buttons := if b.links.Many? then ParsedLinks(b.links.items) else [];
    Section(TextOr(b.title, ""), b.body, RenderMedia(base, b.media, false, "Embedded media"), buttons)
  }

  /**
   * The component: the path defaults to "/", nothing renders when the fetch failed or
   * selected no block, otherwise one section per selected block, in order.
   */
  function Render(base: string, ans: Fetched<seq<Row<Block>>>, path: Option<string>): (r: Option<seq<Section>>)
    ensures r.None? <==> ans.FetchFailed? || ans.value == []
    ensures r.Some? ==> var blocks := FetchBlocks(ans, path.OrElse("/"));
      |r.value| == |blocks| && forall i :: 0 <= i < |blocks| ==> r.value[i] == SectionOf(base, blocks[i].block)
  {
    var blocks := FetchBlocks(ans, path.OrElse("/"));
    if blocks == [] then None else Some(Sections(base, blocks))
  }

  /** One section per block, in order. */
  function Sections(base: string, blocks: seq<Row<Block>>): (r: seq<Section>)
    ensures |r| == |blocks| && forall i :: 0 <= i < |blocks| ==> r[i] == SectionOf(base, blocks[i].block)
  {
    seq(|blocks|, i requires 0 <= i < |blocks| => SectionOf(base, blocks[i].block))
  }

  /** Appending blocks that do not match a path never removes a block that does. */
  lemma ExtraRowsKeepMatches(rows: seq<Row<Block>>, extra: seq<Row<Block>>, path: string)
    requires path != ""
    requires forall i :: 0 <= i < |extra| ==> !RowMatches(extra[i], Norm(Some(path)))
    requires Matching(rows, Norm(Some(path))) != []
    ensures FetchBlocks(Fetched(rows + extra), path) == FetchBlocks(Fetched(rows), path)
  {
    var want := Norm(Some(path));
    MatchingAppend(rows, extra, want);
    MatchingNone(extra, want);
  }
}
