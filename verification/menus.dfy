// The menu items the CMS returns and the choice of which list in its answer to use;
// shared by HeaderNav (`getMenuTree`) and Footer (`fetchMenu`).
module Menus {
  import opened Common

  /** The three places a flat Drupal menu item may name its parent. */
  datatype ParentFields = ParentFields(
    attributesParent: Option<string>,  // attributes.parent
    drupalParent: Option<string>,      // drupal_parent
    metaParent: Option<string>         // meta.parent
  )

  /** A menu item: `items` is the nested children list (empty when absent). */
  datatype MenuItem = MenuItem(title: string, url: string, parents: ParentFields, items: seq<MenuItem>)

  /**
   * The shapes `getMenu` may resolve to: nothing usable (null, a failed request turned
   * into null by `.catch`, or a scalar), an object whose `items` / `tree` members are
   * arrays (`Some`) or not (`None`), or a bare array.
   */
  datatype RawMenu =
    | NoMenu
    | MenuObject(items: Option<seq<MenuItem>>, tree: Option<seq<MenuItem>>)
    | MenuArray(entries: seq<MenuItem>)

  /**
   * The flat list taken from the answer: `items` when it is an array, otherwise `tree`
   * when it is an array, otherwise the answer itself when it is an array, otherwise [].
   */
  function SelectItems(raw: RawMenu): (flat: seq<MenuItem>)
    ensures raw.MenuObject? && raw.items.Some? ==> flat == raw.items.value
    ensures raw.MenuObject? && raw.items.None? && raw.tree.Some? ==> flat == raw.tree.value
    ensures raw.MenuArray? ==> flat == raw.entries
    ensures raw.NoMenu? || (raw.MenuObject? && raw.items.None? && raw.tree.None?) ==> flat == []
  {
    match raw
    case NoMenu => []
    case MenuObject(items, tree) =>
      if items.Some? then items.value else if tree.Some? then tree.value else []
    case MenuArray(entries) => entries
  }
}
