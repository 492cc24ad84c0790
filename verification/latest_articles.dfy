/**
 * The latest-articles block on the home page: up to three recent articles as cards with a
 * title, a link, an image when the media is an image with a source, and a short excerpt.
 */
module LatestArticles {
  import opened Common
  import opened Text
  import opened BlockKit
  import opened Html

  /** An image file reference: `uri.url`, `uri.value` and `url`, each possibly absent. */
  datatype ImageRef = ImageRef(uriUrl: Option<string>, uriValue: Option<string>, url: Option<string>)

  /**
   * A media entity as the block sees it: its type, and the image reference found directly,
   * under `attributes`, or under `relationships`.
   */
  datatype ArticleMedia = ArticleMedia(kind: string, image: Option<ImageRef>,
                                       attrImage: Option<ImageRef>, relImage: Option<ImageRef>)

  /** The article fields the block reads. */
  datatype Node = Node(id: string, title: Option<string>, alias: Option<string>,
                       media: Option<ArticleMedia>, relMedia: Option<ArticleMedia>,
                       processed: Option<string>)

  /** The first image reference present: direct, then under attributes, then under relationships. */
  function ImageOf(m: ArticleMedia): (r: Option<ImageRef>)
    ensures m.image.Some? ==> r == m.image
    ensures r.None? <==> m.image.None? && m.attrImage.None? && m.relImage.None?
  {
    if m.image.Some? then m.image else if m.attrImage.Some? then m.attrImage else m.relImage
  }

  /**
   * `getMediaUrl`: nothing unless the media is an image; otherwise the first non-empty of
   * `uri.url`, `uri.value`, `url` and the attribute copy's `url`, made absolute ("" when
   * there is none).
   */
  function MediaUrl(base: string, media: Option<ArticleMedia>): (r: Option<string>)
    ensures r.Some? <==> media.Some? && media.value.kind == MediaImageType
    ensures r.Some? ==> r.value == AbsUrl(base, Some(RawSource(media.value)))
  {
    if media.None? || media.value.kind != MediaImageType then None
    else Some(AbsUrl(base, Some(RawSource(media.value))))
  }

  /** The source candidates of an image media, in order of preference. */
  function RawSource(m: ArticleMedia): (r: string)
    ensures r != "" ==> r in Candidates(m)
  {
    FirstNonEmpty(Candidates(m))
  }

  function Candidates(m: ArticleMedia): seq<string> {
    var img := ImageOf(m);
    [if img.Some? then img.value.uriUrl.OrElse("") else "",
     if img.Some? then img.value.uriValue.OrElse("") else "",
     if img.Some? then img.value.url.OrElse("") else "",
     if m.attrImage.Some? then m.attrImage.value.url.OrElse("") else ""]
  }

  /** An image media whose references name no source yields "", and no image is drawn. */
  lemma SourcelessImageHidden(base: string, m: ArticleMedia)
    requires m.kind == MediaImageType && m.image.None? && m.attrImage.None? && m.relImage.None?
    ensures MediaUrl(base, Some(m)) == Some("")
  {
    assert Candidates(m) == ["", "", "", ""];
    assert FirstNonEmpty(Candidates(m)) == "";
  }

  /**
   * `trimText`: tags removed and the text trimmed; a text longer than the limit is cut to
   * it, trimmed again, and marked with an ellipsis.
   */
  function TrimText(html: string, limit: nat): (r: string)
    ensures |StripTags(html)| <= limit ==> r == StripTags(html)
    ensures |StripTags(html)| > limit ==>
      (0 < |r| <= limit + 1 && r[|r| - 1] == '…' && r[..|r| - 1] <= StripTags(html))
    ensures |StripTags(html)| > limit ==> r == Trim(StripTags(html)[..limit]) + "…"
  {
    var text := StripTags(html);
    if |text| > limit then
      var cut := Trim(text[..limit]);
      assert cut <= text by {
        TrimmedPrefix(text, limit);
      }
      var r := cut + "…";
      assert r[..|r| - 1] == cut;
      r
    else text
  }

  /** Trimming a prefix of a trimmed text leaves a prefix of it: nothing leads with white space. */
  lemma TrimmedPrefix(text: string, n: nat)
    requires IsTrimmed(text) && n <= |text|
    ensures Trim(text[..n]) <= text
  {
    var p := text[..n];
    assert TrimStart(p) == p by {
      if p != [] {
        assert p[0] == text[0];
      }
    }
    PrefixOfPrefix(text, n, |TrimEnd(p)|);
  }

  /** A prefix of a prefix is a prefix. */
  lemma PrefixOfPrefix(text: string, n: nat, k: nat)
    requires k <= n <= |text|
    ensures text[..n][..k] <= text
  {
    assert text[..n][..k] == text[..k];
  }

  /** What one article renders as. */
  datatype Card = Card(title: string, href: string, image: Option<string>, excerpt: string)

  /** `node.field_media || node.relationships.field_media.data`. */
  function MediaOf(n: Node): (r: Option<ArticleMedia>)
    ensures n.media.Some? ==> r == n.media
    ensures n.media.None? ==> r == n.relMedia
  {
    if n.media.Some? then n.media else n.relMedia
  }

  /**
   * The card of one article: the title falls back to "(Untitled)" and the link to
   * "/node/" + id (both when empty too), the image is drawn only for a non-empty URL, and
   * the excerpt, at most 150 characters before the ellipsis, only for a non-empty body.
   */
  function CardOf(base: string, n: Node): (c: Card)
    ensures c.title == (if n.title.OrElse("") != "" then n.title.value else "(Untitled)")
    ensures c.href == (if n.alias.OrElse("") != "" then n.alias.value else "/node/" + n.id)
    ensures c.image.Some? ==> c.image.value != ""
    ensures c.image.Some? <==> MediaUrl(base, MediaOf(n)).Some? && MediaUrl(base, MediaOf(n)).value != ""
    ensures c.image.Some? ==> c.image == MediaUrl(base, MediaOf(n))
    ensures n.processed.OrElse("") == "" ==> c.excerpt == ""
    ensures n.processed.OrElse("") != "" ==> c.excerpt == TrimText(n.processed.value, 150)
  {
    var url := MediaUrl(base, MediaOf(n));
    var body := n.processed.OrElse("");
    Card(if n.title.OrElse("") != "" then n.title.value else "(Untitled)",
         if n.alias.OrElse("") != "" then n.alias.value else "/node/" + n.id,
         if url.Some? && url.value != "" then url else None,
         if body != "" then TrimText(body, 150) else "")
  }

  /** `fetchArticles`: a failure gives no articles. */
  function FetchArticles(ans: Fetched<seq<Node>>): (r: seq<Node>)
    ensures ans.FetchFailed? ==> r == []
    ensures ans.Fetched? ==> r == ans.value
  {
    if ans.FetchFailed? then [] else ans.value
  }

  /** The block: nothing without articles, otherwise one card per article, in order. */
  function Render(base: string, ans: Fetched<seq<Node>>): (r: Option<seq<Card>>)
    ensures r.None? <==> FetchArticles(ans) == []
    ensures r.Some? ==> (|r.value| == |FetchArticles(ans)|
      && forall i :: 0 <= i < |r.value| ==> r.value[i] == CardOf(base, FetchArticles(ans)[i]))
  {
    var nodes := FetchArticles(ans);
    if nodes == [] then None
    else Some(seq(|nodes|, i requires 0 <= i < |nodes| => CardOf(base, nodes[i])))
  }
}
