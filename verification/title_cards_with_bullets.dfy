/**
 * The "title, cards with link and bullet" block: a single-block fetch, a grid of cards for
 * the items that carry a title or a description, and one flat bullet list built from the
 * bullet text of every item.
 */
module TitleCardsWithBullets {
  import opened Common
  import opened Text
  import opened BlockKit

  /** One entry of the multi-value field; absent strings read as "". */
  datatype Item = Item(title: string, description: string, bullets: string,
                       linkUri: Option<string>, linkTitle: string)

  /** The fields of the block the component reads. */
  datatype Block = Block(title: Option<Formatted>, headerHint: string, items: Multi<Item>)

  /** `fetchBlock`: nothing for no rows or a failure, else the filtered head or the newest row. */
  function FetchBlock(ans: Fetched<seq<Row<Block>>>, path: string): (r: Option<Row<Block>>)
    ensures r.None? <==> ans.FetchFailed? || ans.value == []
    ensures r.Some? && path == "" ==> r.value == ans.value[0]
    ensures r.Some? ==> r.value in ans.value
    ensures r.Some? && path != "" ==> var m := Matching(ans.value, Norm(Some(path)));
      r.value == (if m != [] then m[0] else ans.value[0])
  {
    FetchFilteredHead(ans, path)
  }

  /** An item is drawn as a card when its title or its description is not blank. */
  predicate HasText(it: Item) {
    Trim(it.title) != "" || Trim(it.description) != ""
  }

  /** `items.filter(hasTitle || hasDesc)`. */
  function CardItems(items: seq<Item>): (r: seq<Item>)
    ensures |r| <= |items|
    ensures forall i :: 0 <= i < |r| ==> HasText(r[i])
  {
    if items == [] then []
    else
      var rest := CardItems(items[1..]);
      if HasText(items[0]) then [items[0]] + rest else rest
  }

  /** The cards are exactly the items with text. */
  lemma {:induction false} CardItemsExact(items: seq<Item>, it: Item)
    ensures it in CardItems(items) <==> it in items && HasText(it)
  {
    if items != [] {
      CardItemsExact(items[1..], it);
      assert items == [items[0]] + items[1..];
    }
  }

  /** Filtering keeps the input order: it distributes over concatenation. */
  lemma {:induction false} CardItemsAppend(a: seq<Item>, b: seq<Item>)
    ensures CardItems(a + b) == CardItems(a) + CardItems(b)
  {
    if a != [] {
      assert (a + b)[0] == a[0];
      assert (a + b)[1..] == a[1..] + b;
      CardItemsAppend(a[1..], b);
      var rest := CardItems(a[1..] + b);
      if HasText(a[0]) {
        assert CardItems(a + b) == [a[0]] + rest;
        assert CardItems(a) == [a[0]] + CardItems(a[1..]);
      } else {
        assert CardItems(a + b) == rest;
        assert CardItems(a) == CardItems(a[1..]);
      }
    } else {
      assert a + b == b;
    }
  }

  /** `splitBullets`: nothing for an empty text, else its trimmed non-blank lines. */
  function SplitBullets(text: string): (r: seq<string>)
    ensures forall i :: 0 <= i < |r| ==> r[i] != "" && IsTrimmed(r[i])
    ensures text == "" ==> r == []
  {
    if text == "" then [] else TrimmedLines(text)
  }

  /** The empty-text guard changes nothing: the empty text has no non-blank line either. */
  lemma SplitBulletsIsTrimmedLines(text: string)
    ensures SplitBullets(text) == TrimmedLines(text)
  {
    if text == "" {
      assert Split(text, '\n') == [""];
      assert SplitLines(text) == [""];
      assert Trim("") == "";
    }
  }

  /** `items.map(bullets).flatMap(splitBullets).filter(Boolean)`, over every item. */
  function BulletLines(items: seq<Item>): (r: seq<string>)
    ensures forall i :: 0 <= i < |r| ==> r[i] != "" && IsTrimmed(r[i])
  {
    if items == [] then [] else SplitBullets(items[0].bullets) + BulletLines(items[1..])
  }

  /** The bullet list of a concatenation is the concatenation of the bullet lists. */
  lemma {:induction false} BulletLinesAppend(a: seq<Item>, b: seq<Item>)
    ensures BulletLines(a + b) == BulletLines(a) + BulletLines(b)
  {
    if a != [] {
      assert (a + b)[0] == a[0];
      assert (a + b)[1..] == a[1..] + b;
      BulletLinesAppend(a[1..], b);
    } else {
      assert a + b == b;
    }
  }

  /** An item with clean bullet lines joined by line feeds contributes exactly those lines. */
  lemma BulletsOfJoin(it: Item, lines: seq<string>)
    requires it.bullets == Join(lines, '\n')
    requires forall i :: 0 <= i < |lines| ==> lines[i] != [] && IsTrimmed(lines[i]) && '\n' !in lines[i]
    ensures BulletLines([it]) == lines
  {
    assert [it][1..] == [];
    assert BulletLines([it]) == SplitBullets(it.bullets);
    SplitBulletsIsTrimmedLines(it.bullets);
    TrimmedLinesOfJoin(lines);
  }

  /**
   * Bullets are taken from every item, cards included: an item with text whose bullet
   * field holds clean lines is a card and also contributes exactly those lines at its
   * position in the bullet list.
   */
  lemma CardBulletsListed(before: seq<Item>, it: Item, after: seq<Item>, lines: seq<string>)
    requires HasText(it) && it.bullets == Join(lines, '\n')
    requires forall i :: 0 <= i < |lines| ==> lines[i] != [] && IsTrimmed(lines[i]) && '\n' !in lines[i]
    ensures it in CardItems(before + [it] + after)
    ensures BulletLines(before + [it] + after) == BulletLines(before) + lines + BulletLines(after)
  {
    assert it in before + [it] + after;
    CardItemsExact(before + [it] + after, it);
    BulletLinesAppend(before + [it], after);
    BulletLinesAppend(before, [it]);
    BulletsOfJoin(it, lines);
  }

  /** A rendered card: trimmed title and description, and its link part. */
  datatype CardView = CardView(title: string, description: string, link: CardLink)

  function CardOf(c: Item): (v: CardView)
    ensures v.title == Trim(c.title) && v.description == Trim(c.description)
    ensures IsTrimmed(v.title) && IsTrimmed(v.description)
    ensures v.link == CardLinkOf(c.linkUri, c.linkTitle)
    ensures v.link.href.Some? <==> c.linkUri.Some? && Trim(c.linkUri.value) != ""
  {
    CardView(Trim(c.title), Trim(c.description), CardLinkOf(c.linkUri, c.linkTitle))
  }

  /** What the block renders as; the hint line is drawn only when it is not empty. */
  datatype View = View(title: string, headerHint: string, showHint: bool,
                       cards: seq<CardView>, bullets: seq<string>)

  function ViewOf(b: Block): (v: View)
    ensures v.title == TextOr(b.title, "") && v.headerHint == b.headerHint
    ensures v.showHint <==> b.headerHint != ""
    ensures v.bullets == BulletLines(ReadList(b.items))
    ensures var cs := CardItems(ReadList(b.items));
      |v.cards| == |cs| && forall i :: 0 <= i < |cs| ==> v.cards[i] == CardOf(cs[i])
  {
    var items := ReadList(b.items);
    var cs := CardItems(items);
    View(TextOr(b.title, ""), b.headerHint, b.headerHint != "",
         seq(|cs|, i requires 0 <= i < |cs| => CardOf(cs[i])), BulletLines(items))
  }

  /** The component: the path is passed through unset when absent; nothing renders without a block. */
  function Render(ans: Fetched<seq<Row<Block>>>, path: Option<string>): (r: Option<View>)
    ensures r.None? <==> ans.FetchFailed? || ans.value == []
    ensures r.Some? ==> r.value == ViewOf(FetchBlock(ans, path.OrElse("")).value.block)
  {
    match FetchBlock(ans, path.OrElse(""))
    case None => None
    case Some(row) => Some(ViewOf(row.block))
  }
}
