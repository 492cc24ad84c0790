// The bookkeeping of HeaderNav's `normalizeMenu`: the key of an item, the keys of a
// list, and the graph of `items` arrays and assigned parents the passes build.
module MenuLinks {
  import opened Common
  import opened Menus

  /** `keyOf`: the URL, or "title:" and the title when the URL is empty. */
  function KeyOf(x: MenuItem): string {
    if x.url != "" then x.url else "title:" + x.title
  }

  /** `parentKey`: `attributes.parent ?? drupal_parent ?? meta.parent ?? null`. */
  function ParentKey(x: MenuItem): Option<string> {
    Coalesce(Coalesce(x.parents.attributesParent, x.parents.drupalParent), x.parents.metaParent)
  }

  /** The childless copy `{ ...it, items: [] }` stored in `nodeByKey`. */
  function Clone(x: MenuItem): MenuItem {
    x.(items := [])
  }

  predicate NoDup(s: seq<string>) {
    forall a, b :: 0 <= a < b < |s| ==> s[a] != s[b]
  }

  /** The keys of the items, which are the keys of `nodeByKey`. */
  function KeySet(xs: seq<MenuItem>): set<string> {
    set i | 0 <= i < |xs| :: KeyOf(xs[i])
  }

  lemma {:induction false} KeySetSnoc(xs: seq<MenuItem>)
    requires xs != []
    ensures KeySet(xs) == KeySet(xs[..|xs| - 1]) + {KeyOf(xs[|xs| - 1])}
  {
    var init := xs[..|xs| - 1];
    forall k | k in KeySet(xs) ensures k in KeySet(init) + {KeyOf(xs[|xs| - 1])} {
      var i :| 0 <= i < |xs| && KeyOf(xs[i]) == k;
      if i < |xs| - 1 {
        assert init[i] == xs[i];
      }
    }
    forall k | k in KeySet(init) ensures k in KeySet(xs) {
      var i :| 0 <= i < |init| && KeyOf(init[i]) == k;
      assert xs[i] == init[i];
    }
  }

  /** Item `m` is the only item carrying its key. */
  ghost predicate UniqueKey(flat: seq<MenuItem>, m: int)
    requires 0 <= m < |flat|
  {
    forall j :: 0 <= j < |flat| && j != m ==> KeyOf(flat[j]) != KeyOf(flat[m])
  }

  /** No two items share a key (the case in which the heuristics are well defined). */
  ghost predicate DistinctKeys(flat: seq<MenuItem>) {
    forall m :: 0 <= m < |flat| ==> UniqueKey(flat, m)
  }

  // ----- the graph `normalizeMenu` builds -----

  /**
   * The `items` arrays of the copies (`kids`, by key of the copy) and the parent
   * recorded for every key assigned so far (`parent`, whose keys are `assigned`).
   */
  datatype Links = Links(kids: map<string, seq<string>>, parent: map<string, string>)

  /**
   * The `items` lists and `parent` agree: every list is duplicate-free, a key listed
   * under `k` has parent `k`, and a key with a parent is a node listed under it.
   */
  ghost predicate WellLinked(g: Links) {
    (forall k :: k in g.kids ==> NoDup(g.kids[k]))
    && (forall k, c :: k in g.kids && c in g.kids[k] ==> c in g.parent && g.parent[c] == k)
    && (forall c :: c in g.parent ==> c in g.kids && g.parent[c] in g.kids && c in g.kids[g.parent[c]])
  }

  /** Push the copy with key `c` onto the `items` of the copy with key `k`, and mark `c` assigned. */
  function Push(g: Links, k: string, c: string): (r: Links)
    requires k in g.kids
    ensures r.kids.Keys == g.kids.Keys && r.parent.Keys == g.parent.Keys + {c}
  {
    UpdateKeys(g.kids, k, g.kids[k] + [c]);
    UpdateKeys(g.parent, c, k);
    Links(g.kids[k := g.kids[k] + [c]], g.parent[c := k])
  }

  /** Pushing a node that has no parent yet keeps the graph well linked. */
  lemma PushLinked(g: Links, k: string, c: string)
    requires WellLinked(g) && k in g.kids && c in g.kids && c !in g.parent
    ensures WellLinked(Push(g, k, c))
  {
    PushNoDup(g, k, c);
    PushParents(g, k, c);
  }

  /** The list pushed onto gains a key it did not hold, so every list stays duplicate-free. */
  lemma PushNoDup(g: Links, k: string, c: string)
    requires WellLinked(g) && k in g.kids && c !in g.parent
    ensures forall k1 :: k1 in Push(g, k, c).kids ==> NoDup(Push(g, k, c).kids[k1])
  {
    var r := Push(g, k, c);
    forall k1 | k1 in r.kids ensures NoDup(r.kids[k1]) {
      if k1 == k {
        var l := g.kids[k];
        assert forall a :: 0 <= a < |l| ==> l[a] != c;
        assert forall a :: 0 <= a < |l| ==> r.kids[k][a] == l[a];
      }
    }
  }

  /** Every listed key still has the listing node as its parent, the pushed one included. */
  lemma PushParents(g: Links, k: string, c: string)
    requires WellLinked(g) && k in g.kids && c !in g.parent
    ensures forall k1, x :: k1 in Push(g, k, c).kids && x in Push(g, k, c).kids[k1] ==>
      x in Push(g, k, c).parent && Push(g, k, c).parent[x] == k1
  {
    var r := Push(g, k, c);
    forall k1, x | k1 in r.kids && x in r.kids[k1] ensures x in r.parent && r.parent[x] == k1 {
      if k1 != k || x != c {
        assert x in g.kids[k1];
        assert x != c;
      }
    }
  }

  /** The copies before any pass: every `items` list empty. */
  function Childless(nodes: map<string, MenuItem>): (kids: map<string, seq<string>>)
    ensures kids.Keys == nodes.Keys
    ensures forall k :: k in kids ==> kids[k] == []
  {
    map k | k in nodes :: []
  }

  /** Item `m` has a parent recorded exactly when `e` names one, and it is that one. */
  ghost predicate Records(flat: seq<MenuItem>, parent: map<string, string>, m: int, e: Option<string>)
    requires 0 <= m < |flat|
  {
    (KeyOf(flat[m]) in parent <==> e.Some?)
    && (e.Some? ==> parent[KeyOf(flat[m])] == e.value)
  }

  /** Pushing key `c` changes the parent recorded for item `m` only when `c` is its key. */
  lemma PushRecords(flat: seq<MenuItem>, g: Links, k: string, c: string, m: int, e: Option<string>)
    requires k in g.kids && 0 <= m < |flat| && Records(flat, g.parent, m, e)
    ensures c != KeyOf(flat[m]) ==> Records(flat, Push(g, k, c).parent, m, e)
    ensures c == KeyOf(flat[m]) ==> Records(flat, Push(g, k, c).parent, m, Some(k))
  {
  }
}
