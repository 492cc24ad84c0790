/**
 * The route media block: an exact `field_path` filter with no fallback and no error
 * handling, and only the first selected block's media is shown.
 */
module RouteMedia {
  import opened Common
  import opened BlockKit

  /** The one field of a block the component reads. */
  datatype Block = Block(media: Option<Media>)

  /** `fetchRouteMediaBlocks`: a failed request propagates; otherwise the exact filter. */
  function FetchRouteMediaBlocks(ans: Fetched<seq<Row<Block>>>, path: string): (r: Fetched<seq<Row<Block>>>)
    ensures r.FetchFailed? <==> ans.FetchFailed?
    ensures r.Fetched? ==> forall x :: x in r.value <==> x in ans.value && x.fieldPath == Some(path)
  {
    FetchExact(ans, path)
  }

  /**
   * The component: a failure propagates; no selected block or no media on the first one
   * renders nothing; otherwise the first block's media, with "Embedded video" as the
   * default video title and no placeholder.
   */
  function Render(base: string, ans: Fetched<seq<Row<Block>>>, path: Option<string>): (r: Fetched<Option<MediaView>>)
    ensures r.FetchFailed? <==> ans.FetchFailed?
    ensures r.Fetched? && r.value.Some? ==>
      var blocks := FetchRouteMediaBlocks(ans, path.OrElse("/")).value;
      blocks != [] && blocks[0].fieldPath == Some(path.OrElse("/")) && blocks[0].block.media.Some?
      && r.value.value == RenderMedia(base, blocks[0].block.media, false, "Embedded video")
    ensures r.Fetched? && r.value.None? ==>
      var blocks := FetchRouteMediaBlocks(ans, path.OrElse("/")).value;
      blocks == [] || blocks[0].block.media.None?
  {
    match FetchRouteMediaBlocks(ans, path.OrElse("/"))
    case FetchFailed => FetchFailed
    case Fetched(blocks) =>
      if blocks == [] then Fetched(None)
      else
        assert blocks[0] in blocks;
        var media := blocks[0].block.media;
        if media.None? then Fetched(None)
        else Fetched(Some(RenderMedia(base, media, false, "Embedded video")))
  }

  /** Filtering twice is filtering once: rows with another path never influence the result. */
  lemma {:induction false} ExactFilterIdempotent(rows: seq<Row<Block>>, path: string)
    ensures ExactFilter(ExactFilter(rows, path), path) == ExactFilter(rows, path)
    decreases |rows|
  {
    if rows != [] {
      ExactFilterIdempotent(rows[1..], path);
    }
  }

  /** Only rows whose path is exactly `path` decide what renders. */
  lemma OnlyExactRowsMatter(base: string, rows: seq<Row<Block>>, path: string)
    ensures Render(base, Fetched(rows), Some(path)) == Render(base, Fetched(ExactFilter(rows, path)), Some(path))
  {
    ExactFilterIdempotent(rows, path);
  }
}
