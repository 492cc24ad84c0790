/**
 * The title/text/text block: a single-block fetch written as `filtered[0] ?? rows[0]`,
 * with no default path, rendering a title and two bodies.
 */
module TitleTextText {
  import opened Common
  import opened BlockKit

  /** The fields of the block the component reads (absent text fields read as ""). */
  datatype Block = Block(title: Option<Formatted>, body: string, secondBody: string)

  /**
   * `fetchBlock`: no rows (or a failure) gives nothing; with a path the first tolerant
   * match, else the newest row; without one the newest row.
   */
  function FetchBlock(ans: Fetched<seq<Row<Block>>>, path: string): (r: Option<Row<Block>>)
    ensures r.None? <==> ans.FetchFailed? || ans.value == []
    ensures r.Some? && path == "" ==> r.value == ans.value[0]
    ensures r.Some? && path != "" ==>
      var m := Matching(ans.value, Norm(Some(path)));
      r.value == (if m != [] then m[0] else ans.value[0])
  {
    FetchFilteredHead(ans, path)
  }

  /** What the block renders as. */
  datatype View = View(title: string, body: string, secondBody: string)

  /** The component: the path is passed through unset when absent; nothing renders without a block. */
  function Render(ans: Fetched<seq<Row<Block>>>, path: Option<string>): (r: Option<View>)
    ensures r.None? <==> ans.FetchFailed? || ans.value == []
    ensures path.None? && r.Some? ==> r.value.title == TextOr(ans.value[0].block.title, "")
    ensures r.Some? ==> var b := FetchBlock(ans, path.OrElse("")).value.block;
      r.value == View(TextOr(b.title, ""), b.body, b.secondBody)
  {
    match FetchBlock(ans, path.OrElse(""))
    case None => None
    case Some(row) => Some(View(TextOr(row.block.title, ""), row.block.body, row.block.secondBody))
  }

  /** The picked block is the first one the tolerant list filter would keep. */
  lemma PicksFirstOfFilter(ans: Fetched<seq<Row<Block>>>, path: string)
    ensures FetchBlock(ans, path) == (if FetchList(ans, path) == [] then None else Some(FetchList(ans, path)[0]))
  {
    FetchOneIsHead(ans, path);
  }
}
