/**
 * The site footer: three menus fetched from the CMS and drawn as the columns "Company",
 * "Resources" and "More", each item with at most one level of children, and links that
 * leave the site opened in a new tab.
 */
module Footer {
  import opened Common
  import opened Text
  import opened Menus

  /**
   * `fetchMenu`: the `items` array, else the `tree` array, else the answer itself when it
   * is an array, else nothing; a failed request gives nothing as well.
   */
  function FetchMenu(ans: Fetched<RawMenu>): (r: seq<MenuItem>)
    ensures ans.FetchFailed? ==> r == []
    ensures ans.Fetched? ==> r == SelectItems(ans.value)
  {
    if ans.FetchFailed? then [] else SelectItems(ans.value)
  }

  /** `ext`: the url starts with an http or https scheme, in any letter case. */
  predicate External(url: string) {
    HasHttpScheme(url)
  }

  /** An external link always has a url of its own, so it never falls back to "#". */
  lemma ExternalIsNotEmpty(url: string)
    requires External(url)
    ensures url != "" && |url| >= 7
  {
    assert |Lower(url)| == |url|;
  }

  /** A drawn link: caption, target, and whether it opens in a new tab without an opener. */
  datatype FooterLink = FooterLink(title: string, href: string, newTab: bool)

  /** A link for an item: `url || "#"`, and a new tab exactly for external urls. */
  function LinkOf(x: MenuItem): (l: FooterLink)
    ensures l.title == x.title
    ensures l.href == (if x.url == "" then "#" else x.url)
    ensures l.newTab <==> External(x.url)
    ensures l.newTab ==> l.href == x.url
  {
    assert External(x.url) ==> x.url != "" by {
      if External(x.url) {
        ExternalIsNotEmpty(x.url);
      }
    }
    FooterLink(x.title, if x.url == "" then "#" else x.url, External(x.url))
  }

  /** An item of a column: its link and its children's links, one level only. */
  datatype Entry = Entry(link: FooterLink, children: seq<FooterLink>)

  function EntryOf(x: MenuItem): (e: Entry)
    ensures e.link == LinkOf(x)
    ensures |e.children| == |x.items|
    ensures forall i :: 0 <= i < |x.items| ==> e.children[i] == LinkOf(x.items[i])
  {
    Entry(LinkOf(x), seq(|x.items|, i requires 0 <= i < |x.items| => LinkOf(x.items[i])))
  }

  /** A titled column of entries. */
  datatype Column = Column(title: string, entries: seq<Entry>)

  function ColumnOf(title: string, items: seq<MenuItem>): (c: Column)
    ensures c.title == title && |c.entries| == |items|
    ensures forall i :: 0 <= i < |items| ==> c.entries[i] == EntryOf(items[i])
  {
    Column(title, seq(|items|, i requires 0 <= i < |items| => EntryOf(items[i])))
  }

  /** The fixed links of the bottom bar. */
  const BottomLinks: seq<FooterLink> :=
    [FooterLink("Privacy", "/privacy", false), FooterLink("Terms", "/terms", false),
     FooterLink("Contact", "/contact", false)]

  /** The footer as drawn; the year is read from the clock and passed in. */
  datatype View = View(columns: seq<Column>, year: int, bottom: seq<FooterLink>)

  /**
   * The footer for the answers to the menus "footer", "footer1" and "footer2": always
   * three columns in that order, a column whose menu failed to load being empty.
   */
  function Render(footer: Fetched<RawMenu>, footer1: Fetched<RawMenu>, footer2: Fetched<RawMenu>,
                  year: int): (v: View)
    ensures |v.columns| == 3
    ensures v.columns[0] == ColumnOf("Company", FetchMenu(footer))
    ensures v.columns[1] == ColumnOf("Resources", FetchMenu(footer1))
    ensures v.columns[2] == ColumnOf("More", FetchMenu(footer2))
    ensures v.year == year && v.bottom == BottomLinks
  {
    View([ColumnOf("Company", FetchMenu(footer)), ColumnOf("Resources", FetchMenu(footer1)),
          ColumnOf("More", FetchMenu(footer2))], year, BottomLinks)
  }

  /** A menu that cannot be loaded leaves its column titled but empty; the others are kept. */
  lemma FailedMenuEmptiesItsColumn(footer1: Fetched<RawMenu>, footer2: Fetched<RawMenu>, year: int)
    ensures Render(FetchFailed, footer1, footer2, year).columns[0] == Column("Company", [])
    ensures Render(FetchFailed, footer1, footer2, year).columns[1] == ColumnOf("Resources", FetchMenu(footer1))
  {
    assert ColumnOf("Company", []).entries == [];
  }
}
