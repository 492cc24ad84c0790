/**
 * The client half of the site header: the desktop menu bar with two levels of flyouts,
 * the secondary buttons with icons, and the mobile drawer whose accordion entries open
 * and close one by one. The drawer state lives in `NavState`; what is drawn is a function
 * of that state, the current path and the two menus.
 */
module NavClient {
  import opened Common
  import opened Text
  import opened Menus

  /** `openSubs[key]` read as a condition: an absent key is closed. */
  function IsOpen(subs: map<string, bool>, key: string): bool {
    key in subs && subs[key]
  }

  /** `{ ...s, [key]: !s[key] }`: one key flipped, an absent key opened. */
  function Toggled(subs: map<string, bool>, key: string): (r: map<string, bool>)
    ensures r.Keys == subs.Keys + {key}
  {
    subs[key := !IsOpen(subs, key)]
  }

  /** Toggling flips the one key and leaves every other key as it was. */
  lemma ToggleFlipsOne(subs: map<string, bool>, key: string, other: string)
    ensures IsOpen(Toggled(subs, key), key) == !IsOpen(subs, key)
    ensures other != key ==> IsOpen(Toggled(subs, key), other) == IsOpen(subs, other)
  {
  }

  /** Toggling the same key twice restores what every key shows. */
  lemma ToggleTwice(subs: map<string, bool>, key: string, other: string)
    ensures IsOpen(Toggled(Toggled(subs, key), key), other) == IsOpen(subs, other)
  {
    ToggleFlipsOne(subs, key, other);
    ToggleFlipsOne(Toggled(subs, key), key, other);
  }

  /** The accordion key of an item: its url followed by its title. */
  function SubKey(x: MenuItem): string {
    x.url + x.title
  }

  /**
   * Keys are not separated: two items whose url and title split the same text at
   * different places share one key, so opening one opens the other.
   */
  lemma SharedKeyTogglesBoth(subs: map<string, bool>, x: MenuItem, y: MenuItem)
    requires x.url + x.title == y.url + y.title
    ensures IsOpen(Toggled(subs, SubKey(x)), SubKey(y)) == !IsOpen(subs, SubKey(y))
  {
    ToggleFlipsOne(subs, SubKey(x), SubKey(y));
  }

  /** The mobile drawer's state, reset whenever the path changes. */
  class NavState {
    var pathname: string
    var mobileOpen: bool
    var openSubs: map<string, bool>

    /** On mount the drawer is closed and no submenu is open. */
    constructor(path: string)
      ensures pathname == path && !mobileOpen && openSubs == map[]
    {
      pathname := path;
      mobileOpen := false;
      openSubs := map[];
    }

    /** A new path closes the drawer and every submenu; the same path changes nothing. */
    method Navigate(path: string)
      modifies this
      ensures pathname == path
      ensures path != old(pathname) ==> !mobileOpen && openSubs == map[]
      ensures path == old(pathname) ==> mobileOpen == old(mobileOpen) && openSubs == old(openSubs)
    {
      if path != pathname {
        mobileOpen := false;
        openSubs := map[];
      }
      pathname := path;
    }

    /** The hamburger button flips the drawer. */
    method ToggleMobile()
      modifies this
      ensures mobileOpen == !old(mobileOpen)
      ensures pathname == old(pathname) && openSubs == old(openSubs)
    {
      mobileOpen := !mobileOpen;
    }

    /** The backdrop and the close button both shut the drawer. */
    method CloseMobile()
      modifies this
      ensures !mobileOpen
      ensures pathname == old(pathname) && openSubs == old(openSubs)
    {
      mobileOpen := false;
    }

    /** `toggleSub(key)`: the one submenu flips, the rest stay as they were. */
    method ToggleSub(key: string)
      modifies this
      ensures openSubs == Toggled(old(openSubs), key)
      ensures IsOpen(openSubs, key) == !IsOpen(old(openSubs), key)
      ensures forall k :: k != key ==> IsOpen(openSubs, k) == IsOpen(old(openSubs), k)
      ensures pathname == old(pathname) && mobileOpen == old(mobileOpen)
    {
      openSubs := Toggled(openSubs, key);
      forall k | k != key
        ensures IsOpen(openSubs, k) == IsOpen(old(openSubs), k)
      {
        ToggleFlipsOne(old(openSubs), key, k);
      }
    }
  }

  /** `url || "#"`: an empty url links to "#". */
  function Href(url: string): (r: string)
    ensures r != ""
    ensures url != "" ==> r == url
  {
    if url == "" then "#" else url
  }

  /** A link as drawn: its caption and its target. */
  datatype NavLink = NavLink(title: string, href: string)

  /** A second-level desktop entry and its third-level links. */
  datatype DesktopChild = DesktopChild(link: NavLink, grandchildren: seq<NavLink>)

  /** A top-level desktop entry: highlighted when it is the current page. */
  datatype DesktopTop = DesktopTop(link: NavLink, active: bool, hasFlyout: bool, children: seq<DesktopChild>)

  function LinkOf(x: MenuItem): (l: NavLink)
    ensures l.title == x.title && l.href != ""
  {
    NavLink(x.title, Href(x.url))
  }

  function ChildOf(x: MenuItem): (c: DesktopChild)
    ensures c.link == LinkOf(x)
    ensures |c.grandchildren| == |x.items|
    ensures forall i :: 0 <= i < |x.items| ==> c.grandchildren[i] == LinkOf(x.items[i])
  {
    DesktopChild(LinkOf(x), seq(|x.items|, i requires 0 <= i < |x.items| => LinkOf(x.items[i])))
  }

  /**
   * A top-level entry: active exactly when its url is the path, with a flyout exactly
   * when it has children, and three levels drawn at most.
   */
  function TopOf(x: MenuItem, pathname: string): (t: DesktopTop)
    ensures t.link == LinkOf(x)
    ensures t.active <==> x.url == pathname
    ensures t.hasFlyout <==> x.items != []
    ensures |t.children| == |x.items|
    ensures forall i :: 0 <= i < |x.items| ==> t.children[i] == ChildOf(x.items[i])
  {
    DesktopTop(LinkOf(x), x.url == pathname, x.items != [],
               seq(|x.items|, i requires 0 <= i < |x.items| => ChildOf(x.items[i])))
  }

  /** The desktop menu bar, one entry per primary item in order. */
  function DesktopMenu(items: seq<MenuItem>, pathname: string): (r: seq<DesktopTop>)
    ensures |r| == |items|
    ensures forall i :: 0 <= i < |items| ==> r[i] == TopOf(items[i], pathname)
  {
    seq(|items|, i requires 0 <= i < |items| => TopOf(items[i], pathname))
  }

  /** At most one top-level entry is highlighted when the urls differ. */
  lemma OneActiveAtMost(items: seq<MenuItem>, pathname: string, i: nat, j: nat)
    requires i < |items| && j < |items| && items[i].url != items[j].url
    ensures !(DesktopMenu(items, pathname)[i].active && DesktopMenu(items, pathname)[j].active)
  {
  }

  /** A mobile accordion entry; children are drawn only while its submenu is open. */
  datatype MobileEntry = MobileEntry(title: string, href: string, active: bool,
                                     hasToggle: bool, expanded: bool, children: seq<MobileEntry>)

  /**
   * One mobile entry: its link is the raw url (no "#" fallback here), it is highlighted
   * for the current path, the toggle appears for items with children, and the children
   * are drawn, recursively, only when the toggle is open.
   */
  function MobileEntryOf(x: MenuItem, subs: map<string, bool>, pathname: string): (e: MobileEntry)
    ensures e.title == x.title && e.href == x.url
    ensures e.active <==> x.url == pathname
    ensures e.hasToggle <==> x.items != []
    ensures e.expanded <==> x.items != [] && IsOpen(subs, SubKey(x))
    ensures !e.expanded ==> e.children == []
    ensures e.expanded ==> |e.children| == |x.items|
    ensures e.expanded ==> e.children == MobileEntries(x.items, subs, pathname)
    decreases x
  {
    var expanded := x.items != [] && IsOpen(subs, SubKey(x));
    MobileEntry(x.title, x.url, x.url == pathname, x.items != [], expanded,
                if expanded then MobileEntries(x.items, subs, pathname) else [])
  }

  function MobileEntries(xs: seq<MenuItem>, subs: map<string, bool>, pathname: string): (r: seq<MobileEntry>)
    ensures |r| == |xs|
    decreases xs
  {
    if xs == [] then [] else [MobileEntryOf(xs[0], subs, pathname)] + MobileEntries(xs[1..], subs, pathname)
  }

  /** Entries of the mobile menu are the items' entries, in order. */
  lemma {:induction false} MobileEntriesAt(xs: seq<MenuItem>, subs: map<string, bool>, pathname: string, i: nat)
    requires i < |xs|
    ensures MobileEntries(xs, subs, pathname)[i] == MobileEntryOf(xs[i], subs, pathname)
    decreases i
  {
    if i > 0 {
      MobileEntriesAt(xs[1..], subs, pathname, i - 1);
    }
  }

  /** Every drawn entry, at any depth. */
  function Drawn(es: seq<MobileEntry>): (n: nat)
    decreases es
  {
    if es == [] then 0 else 1 + Drawn(es[0].children) + Drawn(es[1..])
  }

  /** With every submenu closed, as after a navigation, only the top level is drawn. */
  lemma {:induction false} ClosedShowsTopLevel(xs: seq<MenuItem>, pathname: string)
    ensures Drawn(MobileEntries(xs, map[], pathname)) == |xs|
    decreases xs
  {
    if xs != [] {
      var es := MobileEntries(xs, map[], pathname);
      assert es[0] == MobileEntryOf(xs[0], map[], pathname);
      assert es[0].children == [];
      assert es[1..] == MobileEntries(xs[1..], map[], pathname);
      ClosedShowsTopLevel(xs[1..], pathname);
    }
  }

  /** The three secondary icons. */
  datatype Icon = InfoIcon | MailIcon | NewsIcon

  /**
   * `getIconForSecondaryItem`: by a case-insensitive search of the title, "about" before
   * "contact" before "press", and no icon otherwise.
   */
  function IconFor(title: string): (r: Option<Icon>)
    ensures r == Some(InfoIcon) <==> Contains(Lower(title), "about")
    ensures r == Some(MailIcon) <==> !Contains(Lower(title), "about") && Contains(Lower(title), "contact")
    ensures r == Some(NewsIcon) <==>
      (!Contains(Lower(title), "about") && !Contains(Lower(title), "contact") && Contains(Lower(title), "press"))
    ensures r.None? <==>
      (!Contains(Lower(title), "about") && !Contains(Lower(title), "contact") && !Contains(Lower(title), "press"))
  {
    var lower := Lower(title);
    if Contains(lower, "about") then Some(InfoIcon)
    else if Contains(lower, "contact") then Some(MailIcon)
    else if Contains(lower, "press") then Some(NewsIcon)
    else None
  }

  /** The icon does not depend on letter case. */
  lemma IconIgnoresCase(title: string)
    ensures IconFor(Lower(title)) == IconFor(title)
  {
    LowerIdempotent(title);
  }

  /** `styles[index] || styles[0]`: three styles, and every later item takes the first. */
  function StyleIndex(index: nat): (r: nat)
    ensures r < 3
    ensures index < 3 ==> r == index
    ensures index >= 3 ==> r == 0
  {
    if index < 3 then index else 0
  }

  /** A secondary button: caption, target, icon, style and animation delay in milliseconds. */
  datatype SecondaryEntry = SecondaryEntry(link: NavLink, icon: Option<Icon>, style: nat, delayMs: nat)

  function SecondaryMenu(items: seq<MenuItem>): (r: seq<SecondaryEntry>)
    ensures |r| == |items|
    ensures forall i :: 0 <= i < |items| ==>
      (r[i].link == LinkOf(items[i]) && r[i].icon == IconFor(items[i].title)
       && r[i].style == StyleIndex(i) && r[i].delayMs == 100 * i)
  {
    seq(|items|, i requires 0 <= i < |items| =>
      SecondaryEntry(LinkOf(items[i]), IconFor(items[i].title), StyleIndex(i), 100 * i))
  }

  /** The whole header as drawn. */
  datatype Header = Header(desktop: seq<DesktopTop>, separator: bool, secondary: seq<SecondaryEntry>,
                           drawer: Option<seq<MobileEntry>>, drawerSecondary: bool)

  /**
   * The header for a state: the separator and the secondary buttons only when there are
   * secondary items, and the drawer only while it is open.
   */
  function HeaderOf(primary: seq<MenuItem>, secondary: seq<MenuItem>, pathname: string,
                    mobileOpen: bool, subs: map<string, bool>): (h: Header)
    ensures h.desktop == DesktopMenu(primary, pathname)
    ensures h.separator <==> |secondary| > 0
    ensures |h.secondary| == |secondary|
    ensures h.secondary == SecondaryMenu(secondary)
    ensures h.drawer.Some? <==> mobileOpen
    ensures h.drawer.Some? ==> h.drawer.value == MobileEntries(primary, subs, pathname)
    ensures h.drawerSecondary <==> mobileOpen && |secondary| > 0
  {
    Header(DesktopMenu(primary, pathname), |secondary| > 0, SecondaryMenu(secondary),
           if mobileOpen then Some(MobileEntries(primary, subs, pathname)) else None,
           mobileOpen && |secondary| > 0)
  }
}
