// HeaderNav's `normalizeMenu` and `getMenuTree`: a flat list of menu items whose
// parent links may be explicit or missing is turned into a tree of at most three
// sorted levels. Explicit parents come first, then the longest URL that is a
// path-segment prefix, then a parent without URL whose slugified title is the first
// URL segment; everything left is a root.
//
// The source builds an object graph: `nodeByKey` maps each key to a childless copy of
// an item and children are pushed onto those copies' `items` arrays, so one copy can
// be reachable from several places. The model keeps that graph as it is: `nodes` is
// `nodeByKey`, `kids[k]` is the `items` array of the copy stored under key `k`, and
// `roots` lists the keys of the top-level copies.
module HeaderNav {
  import opened Common
  import opened Slug
  import opened Menus
  import opened MenuLinks

  /** Some item already carries a non-empty `items` array. */
  predicate AlreadyNested(flat: seq<MenuItem>) {
    exists i :: 0 <= i < |flat| && flat[i].items != []
  }

  /**
   * `orderIndex`: each key mapped to the index of the last item carrying it, so the
   * item found there always carries that key.
   */
  function OrderOf(xs: seq<MenuItem>): (m: map<string, int>)
    ensures m.Keys == KeySet(xs)
    ensures forall k :: k in m ==> 0 <= m[k] < |xs| && KeyOf(xs[m[k]]) == k
  {
    if xs == [] then map[]
    else
      var m0 := OrderOf(xs[..|xs| - 1]);
      KeySetSnoc(xs);
      assert forall j :: 0 <= j < |xs| - 1 ==> xs[..|xs| - 1][j] == xs[j];
      m0[KeyOf(xs[|xs| - 1]) := |xs| - 1]
  }

  /** `nodeByKey`: each key mapped to a childless copy of an item carrying it. */
  function NodesOf(xs: seq<MenuItem>): (m: map<string, MenuItem>)
    ensures m.Keys == KeySet(xs)
  {
    if xs == [] then map[]
    else
      var m0 := NodesOf(xs[..|xs| - 1]);
      KeySetSnoc(xs);
      m0[KeyOf(xs[|xs| - 1]) := Clone(xs[|xs| - 1])]
  }

  /** The copy stored under a key is that of the last item carrying it. */
  lemma {:induction false} NodesOfLast(xs: seq<MenuItem>, k: string)
    requires k in KeySet(xs)
    ensures NodesOf(xs)[k] == Clone(xs[OrderOf(xs)[k]])
  {
    var init := xs[..|xs| - 1];
    KeySetSnoc(xs);
    if k != KeyOf(xs[|xs| - 1]) {
      NodesOfLast(init, k);
      assert init[OrderOf(init)[k]] == xs[OrderOf(init)[k]];
    }
  }

  /** When its key is unique, item `j` is the one `orderIndex` and `nodeByKey` record. */
  lemma {:induction false} OrderOfUnique(xs: seq<MenuItem>, j: int)
    requires 0 <= j < |xs| && UniqueKey(xs, j)
    ensures OrderOf(xs)[KeyOf(xs[j])] == j
    ensures NodesOf(xs)[KeyOf(xs[j])] == Clone(xs[j])
  {
    var k := KeyOf(xs[j]);
    assert k in KeySet(xs);
    var i := OrderOf(xs)[k];
    assert KeyOf(xs[i]) == k;
    NodesOfLast(xs, k);
  }

  // ----- pass 1: an explicit parent that names an existing key -----

  /** The parent an item names explicitly, when it is non-empty and names some item's key. */
  function ExplicitParent(flat: seq<MenuItem>, x: MenuItem): (p: Option<string>)
    ensures p.Some? ==> p.value != "" && p.value in KeySet(flat) && ParentKey(x) == p
  {
    var p := ParentKey(x);
    if p.Some? && p.value != "" && p.value in KeySet(flat) then p else None
  }

  // ----- pass 2: the longest URL that is a whole-segment prefix -----

  /** `u` is a different URL and `url` starts with `u + "/"`. */
  predicate IsDirPrefix(u: string, url: string) {
    u != url && u + "/" <= url
  }

  /** `byUrl`: the non-empty URLs, in input order. */
  function UrlsOf(xs: seq<MenuItem>): (r: seq<string>)
    ensures forall i :: 0 <= i < |r| ==> r[i] != "" && exists j :: 0 <= j < |xs| && xs[j].url == r[i]
  {
    if xs == [] then []
    else
      var r0 := UrlsOf(xs[..|xs| - 1]);
      assert forall j :: 0 <= j < |xs| - 1 ==> xs[..|xs| - 1][j] == xs[j];
      var last := xs[|xs| - 1];
      if last.url != "" then r0 + [last.url] else r0
  }

  /** With distinct keys every URL of `byUrl` is the key of the copy with that URL. */
  lemma {:induction false} UrlsAreNodes(flat: seq<MenuItem>)
    requires DistinctKeys(flat)
    ensures forall u :: u in UrlsOf(flat) ==> u in NodesOf(flat) && NodesOf(flat)[u].url == u
  {
    forall u | u in UrlsOf(flat)
      ensures u in NodesOf(flat) && NodesOf(flat)[u].url == u
    {
      var i :| 0 <= i < |UrlsOf(flat)| && UrlsOf(flat)[i] == u;
      var j :| 0 <= j < |flat| && flat[j].url == u;
      OrderOfUnique(flat, j);
    }
  }

  /**
   * `c` is what the candidate search may settle on: the longest URL of `urls` that is a
   * whole-segment prefix of `url`, or nothing when there is none.
   */
  predicate LongestAmong(urls: seq<string>, url: string, c: Option<string>) {
    (c.Some? ==>
       c.value in urls && IsDirPrefix(c.value, url)
       && forall v :: v in urls && IsDirPrefix(v, url) ==> |v| <= |c.value|)
    && (c.None? ==> forall v :: v in urls ==> !IsDirPrefix(v, url))
  }

  /** There is only one longest whole-segment prefix: two of equal length are equal. */
  lemma {:induction false} LongestUnique(urls: seq<string>, url: string, c1: Option<string>, c2: Option<string>)
    requires LongestAmong(urls, url, c1) && LongestAmong(urls, url, c2)
    ensures c1 == c2
  {
    if c1.Some? && c2.Some? {
      var u1, u2 := c1.value, c2.value;
      assert |u1| == |u2|;
      assert u1 == (u1 + "/")[..|u1|] == url[..|u1|];
      assert u2 == (u2 + "/")[..|u2|] == url[..|u2|];
    }
  }

  /** The longest whole-segment prefix of `url` among `urls`. */
  function LongestDirPrefix(urls: seq<string>, url: string): (c: Option<string>)
    ensures LongestAmong(urls, url, c)
  {
    if urls == [] then None
    else
      var rest := LongestDirPrefix(urls[1..], url);
      assert forall v :: v in urls ==> v == urls[0] || v in urls[1..];
      if IsDirPrefix(urls[0], url) && (rest.None? || |urls[0]| >= |rest.value|) then Some(urls[0])
      else rest
  }

  /** The parent the URL heuristic finds for an item with a URL. */
  function UrlParent(flat: seq<MenuItem>, x: MenuItem): (u: Option<string>)
    ensures x.url == "" ==> u.None?
    ensures x.url != "" ==> LongestAmong(UrlsOf(flat), x.url, u)
  {
    if x.url == "" then None else LongestDirPrefix(UrlsOf(flat), x.url)
  }

  /** A URL is never attached under a sibling that only shares a partial segment. */
  lemma {:induction false} UrlParentIsWholeSegment(flat: seq<MenuItem>, x: MenuItem)
    requires UrlParent(flat, x).Some?
    ensures UrlParent(flat, x).value + "/" <= x.url
    ensures |UrlParent(flat, x).value| < |x.url|
  {
  }

  // ----- pass 3: a parent without URL whose slugified title is the first segment -----

  /** `parentsWithEmptyUrl`: items with an empty URL and a non-empty title, in input order. */
  function EmptyUrlParents(xs: seq<MenuItem>): (r: seq<MenuItem>)
    ensures forall q :: q in r ==> q in xs && q.url == "" && q.title != ""
  {
    if xs == [] then []
    else
      var r0 := EmptyUrlParents(xs[..|xs| - 1]);
      var last := xs[|xs| - 1];
      assert forall q :: q in xs[..|xs| - 1] ==> q in xs;
      if last.url == "" && last.title != "" then r0 + [last] else r0
  }

  /** `url` starts with `slug` between slashes. */
  predicate SegmentIs(slug: string, url: string) {
    "/" + slug + "/" <= url
  }

  /** `url.startsWith("/" + slugifyTitle(p.title) + "/")`. */
  predicate SlugMatches(p: MenuItem, url: string) {
    SegmentIs(SlugifyTitle(p.title), url)
  }

  /** The key of the first parent of `ps` whose slugified title is the first segment of `url`. */
  function SlugParent(ps: seq<MenuItem>, url: string): (r: Option<string>)
    ensures r.Some? ==> exists p :: p in ps && r.value == KeyOf(p)
  {
    if ps == [] then None
    else if SlugMatches(ps[0], url) then Some(KeyOf(ps[0]))
    else SlugParent(ps[1..], url)
  }

  // ----- the resulting parent of every item -----

  /**
   * The key of the node an item ends up under, `None` making it a root: the explicit
   * parent, else the longest URL prefix, else (for an item with a URL) the first parent
   * without URL whose slug is the item's first URL segment.
   */
  function ParentOf(flat: seq<MenuItem>, x: MenuItem): (p: Option<string>)
    ensures ExplicitParent(flat, x).Some? ==> p == ExplicitParent(flat, x)
    ensures p.None? ==> ExplicitParent(flat, x).None? && UrlParent(flat, x).None?
    ensures p.Some? ==>
      (p == ExplicitParent(flat, x) || p == UrlParent(flat, x) || p == SlugParent(EmptyUrlParents(flat), x.url))
  {
    var e := ExplicitParent(flat, x);
    if e.Some? then e
    else
      var u := UrlParent(flat, x);
      if u.Some? then u
      else if x.url == "" then None
      else SlugParent(EmptyUrlParents(flat), x.url)
  }

  /** A key of an item is a key of `nodeByKey`. */
  lemma {:induction false} ItemIsNode(flat: seq<MenuItem>, q: MenuItem)
    requires q in flat
    ensures KeyOf(q) in KeySet(flat)
  {
    var j :| 0 <= j < |flat| && flat[j] == q;
  }

  /** Every parent the heuristics choose is the key of some node. */
  lemma {:induction false} ParentIsNode(flat: seq<MenuItem>, x: MenuItem)
    ensures ParentOf(flat, x).Some? ==> ParentOf(flat, x).value in KeySet(flat)
  {
    var u := UrlParent(flat, x);
    if ExplicitParent(flat, x).None? && u.Some? {
      var i :| 0 <= i < |UrlsOf(flat)| && UrlsOf(flat)[i] == u.value;
      var j :| 0 <= j < |flat| && flat[j].url == u.value;
      assert KeyOf(flat[j]) == u.value;
    }
    var ps := EmptyUrlParents(flat);
    if ExplicitParent(flat, x).None? && UrlParent(flat, x).None? && x.url != "" && SlugParent(ps, x.url).Some? {
      var p :| p in ps && KeyOf(p) == SlugParent(ps, x.url).value;
      ItemIsNode(flat, p);
    }
  }

  /** An explicit parent that names an existing key wins over both heuristics. */
  lemma {:induction false} ExplicitParentWins(flat: seq<MenuItem>, x: MenuItem)
    requires ParentKey(x).Some? && ParentKey(x).value != "" && ParentKey(x).value in KeySet(flat)
    ensures ParentOf(flat, x) == ParentKey(x)
  {
  }

  /**
   * Without an explicit parent, an item whose URL has a whole-segment prefix among the
   * URLs is placed under the longest one, whatever the title-based parents say.
   */
  lemma {:induction false} UrlBeatsSlug(flat: seq<MenuItem>, x: MenuItem, u: string)
    requires ExplicitParent(flat, x).None?
    requires u in UrlsOf(flat) && IsDirPrefix(u, x.url)
    ensures ParentOf(flat, x).Some? && ParentOf(flat, x) == UrlParent(flat, x)
    ensures |u| <= |ParentOf(flat, x).value|
  {
  }

  /** An item without URL and without explicit parent is always a root. */
  lemma {:induction false} NoUrlNoParent(flat: seq<MenuItem>, x: MenuItem)
    requires x.url == "" && ExplicitParent(flat, x).None?
    ensures ParentOf(flat, x) == None
  {
  }

  // ----- pass 3 as the loops run it, with the slugs computed once per parent -----

  /** `slugs[i]` is the slugified title of `ps[i]`. */
  ghost predicate SlugsFor(ps: seq<MenuItem>, slugs: seq<string>) {
    |slugs| == |ps|
    && forall i {:trigger SlugifyTitle(ps[i].title)} :: 0 <= i < |ps| ==> slugs[i] == SlugifyTitle(ps[i].title)
  }

  /** The slugs of any list of parents exist. */
  lemma {:induction false} SlugsExist(ps: seq<MenuItem>) returns (slugs: seq<string>)
    ensures SlugsFor(ps, slugs)
  {
    slugs := seq(|ps|, i requires 0 <= i < |ps| => SlugifyTitle(ps[i].title));
  }

  /**
   * The index of the first of `slugs[k..n]` that is the first segment of `url`,
   * or -1 when there is none.
   */
  function FirstMatchBelow(slugs: seq<string>, url: string, k: nat, n: nat): (i: int)
    requires n <= |slugs|
    ensures i == -1 || k <= i < n
    ensures i >= 0 ==> SegmentIs(slugs[i], url)
    ensures forall i' :: k <= i' < n && (i < 0 || i' < i) ==> !SegmentIs(slugs[i'], url)
    decreases n - k
  {
    if k >= n then -1
    else if SegmentIs(slugs[k], url) then k
    else FirstMatchBelow(slugs, url, k + 1, n)
  }

  /** Searching one more slug finds what the shorter search found, else possibly the new one. */
  lemma {:induction false} FirstMatchBelowNext(slugs: seq<string>, url: string, k: nat, n: nat)
    requires k <= n < |slugs|
    ensures FirstMatchBelow(slugs, url, k, n + 1) ==
      if FirstMatchBelow(slugs, url, k, n) >= 0 then FirstMatchBelow(slugs, url, k, n)
      else if SegmentIs(slugs[n], url) then n
      else -1
    decreases n - k
  {
    if k < n && !SegmentIs(slugs[k], url) {
      FirstMatchBelowNext(slugs, url, k + 1, n);
    }
  }

  /** Over all the slugs, the search finds the parent `SlugParent` names. */
  lemma {:induction false} FirstMatchIsSlugParent(ps: seq<MenuItem>, slugs: seq<string>, url: string, k: nat)
    requires SlugsFor(ps, slugs) && k <= |ps|
    ensures
      var i := FirstMatchBelow(slugs, url, k, |ps|);
      SlugParent(ps[k..], url) == if i < 0 then None else Some(KeyOf(ps[i]))
    decreases |ps| - k
  {
    if k < |ps| {
      FirstMatchIsSlugParent(ps, slugs, url, k + 1);
      assert ps[k..][0] == ps[k] && ps[k..][1..] == ps[k + 1..];
      assert SlugMatches(ps[k], url) == SegmentIs(slugs[k], url);
    }
  }

  /** No parent matches exactly when `SlugParent` finds none. */
  lemma {:induction false} SlugParentNone(ps: seq<MenuItem>, url: string)
    ensures SlugParent(ps, url) == None <==> forall i :: 0 <= i < |ps| ==> !SlugMatches(ps[i], url)
  {
    var slugs := SlugsExist(ps);
    FirstMatchIsSlugParent(ps, slugs, url, 0);
    assert ps[0..] == ps;
  }

  /** Otherwise it finds the first parent that matches. */
  lemma {:induction false} SlugParentFirst(ps: seq<MenuItem>, url: string, i: int)
    requires 0 <= i < |ps| && SlugMatches(ps[i], url)
    requires forall i' :: 0 <= i' < i ==> !SlugMatches(ps[i'], url)
    ensures SlugParent(ps, url) == Some(KeyOf(ps[i]))
  {
    var slugs := SlugsExist(ps);
    FirstMatchIsSlugParent(ps, slugs, url, 0);
    assert ps[0..] == ps;
    var f := FirstMatchBelow(slugs, url, 0, |ps|);
    assert SegmentIs(slugs[i], url) by {
      assert slugs[i] == SlugifyTitle(ps[i].title);
    }
    assert 0 <= f <= i;
    assert SlugMatches(ps[f], url) by {
      assert slugs[f] == SlugifyTitle(ps[f].title);
    }
    assert f == i;
  }

  /**
   * The parent of item `x` once the outer loop of pass 3 has gone through the first `n`
   * parents of `ps`, starting from `e`: an item with a URL and no parent yet goes to the
   * first parent whose slug is the first segment of its URL.
   */
  function SlugPlace(ps: seq<MenuItem>, slugs: seq<string>, x: MenuItem, e: Option<string>, n: nat): (r: Option<string>)
    requires |slugs| == |ps| && n <= |ps|
    ensures e.Some? || x.url == "" ==> r == e
    ensures e.None? && r.Some? ==> exists j :: 0 <= j < n && r.value == KeyOf(ps[j]) && SegmentIs(slugs[j], x.url)
  {
    if n == 0 then e
    else
      var e0 := SlugPlace(ps, slugs, x, e, n - 1);
      if e0.None? && x.url != "" && SegmentIs(slugs[n - 1], x.url) then Some(KeyOf(ps[n - 1])) else e0
  }

  /** An item that has a parent keeps it; any other with a URL goes to the first matching slug. */
  lemma {:induction false} SlugPlaceFirst(ps: seq<MenuItem>, slugs: seq<string>, x: MenuItem, e: Option<string>, n: nat)
    requires |slugs| == |ps| && n <= |ps|
    ensures SlugPlace(ps, slugs, x, e, n) ==
      if e.Some? || x.url == "" then e
      else
        var i := FirstMatchBelow(slugs, x.url, 0, n);
        if i < 0 then None else Some(KeyOf(ps[i]))
  {
    if n > 0 {
      SlugPlaceFirst(ps, slugs, x, e, n - 1);
      if e.None? && x.url != "" {
        FirstMatchBelowNext(slugs, x.url, 0, n - 1);
      }
    }
  }

  /** Once pass 3 has gone through every parent, the item has the parent `ParentOf` names. */
  lemma {:induction false} SlugPlaceAll(flat: seq<MenuItem>, slugs: seq<string>, x: MenuItem)
    requires SlugsFor(EmptyUrlParents(flat), slugs)
    ensures SlugPlace(EmptyUrlParents(flat), slugs, x, UrlStage(flat, x), |slugs|) == ParentOf(flat, x)
  {
    var ps := EmptyUrlParents(flat);
    SlugPlaceFirst(ps, slugs, x, UrlStage(flat, x), |ps|);
    FirstMatchIsSlugParent(ps, slugs, x.url, 0);
    assert ps[0..] == ps;
  }

  // ----- pass 1: explicit parents -----

  /**
   * Pass 1 over the first `n` items: an item whose parent key is non-empty and names a
   * copy (a key of `kids`, which are those of `nodeByKey`) is pushed under it.
   */
  function ExplicitPass(flat: seq<MenuItem>, g: Links, n: nat): (r: Links)
    requires n <= |flat|
    ensures r.kids.Keys == g.kids.Keys
  {
    if n == 0 then g
    else
      var r0 := ExplicitPass(flat, g, n - 1);
      var p := ParentKey(flat[n - 1]);
      if p.Some? && p.value != "" && p.value in r0.kids then Push(r0, p.value, KeyOf(flat[n - 1])) else r0
  }

  /** Pass 1: every item whose explicit parent names an existing key is pushed under it. */
  method AttachExplicit(flat: seq<MenuItem>, nodes: map<string, MenuItem>, kids0: map<string, seq<string>>)
    returns (kids: map<string, seq<string>>, done: set<string>, ghost parent: map<string, string>)
    requires kids0.Keys == nodes.Keys
    ensures Links(kids, parent) == ExplicitPass(flat, Links(kids0, map[]), |flat|) && done == parent.Keys
  {
    kids, done, parent := kids0, {}, map[];
    var i := 0;
    while i < |flat|
      invariant 0 <= i <= |flat|
      invariant Links(kids, parent) == ExplicitPass(flat, Links(kids0, map[]), i) && done == parent.Keys
    {
      var p := ParentKey(flat[i]);
      if p.Some? && p.value != "" && p.value in nodes {
        kids := kids[p.value := kids[p.value] + [KeyOf(flat[i])]];
        done := done + {KeyOf(flat[i])};
        parent := parent[KeyOf(flat[i]) := p.value];
      }
      i := i + 1;
    }
  }

  /** Pass 1 gives each of the first `n` items with a unique key its explicit parent, and leaves the rest unassigned. */
  lemma {:induction false} ExplicitPassAt(flat: seq<MenuItem>, g: Links, n: nat, m: int)
    requires n <= |flat| && g.kids.Keys == KeySet(flat)
    requires 0 <= m < |flat| && UniqueKey(flat, m) && KeyOf(flat[m]) !in g.parent
    ensures Records(flat, ExplicitPass(flat, g, n).parent, m, if m < n then ExplicitParent(flat, flat[m]) else None)
  {
    if n > 0 {
      ExplicitPassAt(flat, g, n - 1, m);
      var r0 := ExplicitPass(flat, g, n - 1);
      var x := flat[n - 1];
      var p := ParentKey(x);
      if p.Some? && p.value != "" && p.value in r0.kids {
        PushRecords(flat, r0, p.value, KeyOf(x), m, if m < n - 1 then ExplicitParent(flat, flat[m]) else None);
        assert n - 1 != m ==> KeyOf(x) != KeyOf(flat[m]);
      }
    }
  }

  /** With distinct keys, pass 1 from a graph without parents keeps it well linked. */
  lemma {:induction false} ExplicitPassLinked(flat: seq<MenuItem>, g: Links, n: nat)
    requires DistinctKeys(flat) && n <= |flat| && g.kids.Keys == KeySet(flat)
    requires WellLinked(g) && g.parent == map[]
    ensures WellLinked(ExplicitPass(flat, g, n))
  {
    if n > 0 {
      ExplicitPassLinked(flat, g, n - 1);
      var x := flat[n - 1];
      assert KeyOf(x) !in ExplicitPass(flat, g, n - 1).parent by {
        ExplicitPassAt(flat, g, n - 1, n - 1);
      }
      assert KeyOf(x) in g.kids by {
        ItemIsNode(flat, x);
      }
      ExplicitStepLinked(flat, g, n);
    }
  }

  /** One more item of pass 1, one not yet assigned, keeps the graph well linked. */
  lemma ExplicitStepLinked(flat: seq<MenuItem>, g: Links, n: nat)
    requires 0 < n <= |flat| && WellLinked(ExplicitPass(flat, g, n - 1))
    requires KeyOf(flat[n - 1]) in g.kids && KeyOf(flat[n - 1]) !in ExplicitPass(flat, g, n - 1).parent
    ensures WellLinked(ExplicitPass(flat, g, n))
  {
    var r0 := ExplicitPass(flat, g, n - 1);
    var p := ParentKey(flat[n - 1]);
    if p.Some? && p.value != "" && p.value in r0.kids {
      PushLinked(r0, p.value, KeyOf(flat[n - 1]));
    }
  }

  // ----- pass 2: the longest URL prefix -----

  /**
   * The candidate loop of pass 2 over `byUrl[..n]`: a URL `u` other than `url` with `url`
   * starting with `u + "/"` that is a key of `nodes` replaces the candidate when there is
   * none yet or when its node's URL is strictly longer than the candidate's.
   */
  function BestCandidate(byUrl: seq<string>, nodes: map<string, MenuItem>, url: string, n: nat): (c: Option<string>)
    requires n <= |byUrl|
    ensures c.Some? ==> c.value in byUrl[..n] && c.value in nodes && IsDirPrefix(c.value, url)
  {
    if n == 0 then None
    else
      var c := BestCandidate(byUrl, nodes, url, n - 1);
      var u := byUrl[n - 1];
      assert byUrl[..n] == byUrl[..n - 1] + [u];
      if IsDirPrefix(u, url) && u in nodes && (c.None? || |nodes[u].url| > |nodes[c.value].url|) then Some(u)
      else c
  }

  /** When every URL of `byUrl` is the key of a node with that URL, the candidate loop finds the longest prefix. */
  lemma {:induction false} BestCandidateLongest(byUrl: seq<string>, nodes: map<string, MenuItem>, url: string, n: nat)
    requires n <= |byUrl|
    requires forall u :: u in byUrl ==> u in nodes && nodes[u].url == u
    ensures LongestAmong(byUrl[..n], url, BestCandidate(byUrl, nodes, url, n))
  {
    if n > 0 {
      BestCandidateLongest(byUrl, nodes, url, n - 1);
      assert byUrl[..n] == byUrl[..n - 1] + [byUrl[n - 1]];
    }
  }

  /** With distinct keys the candidate loop finds the URL parent. */
  lemma {:induction false} BestCandidateIsUrlParent(flat: seq<MenuItem>, x: MenuItem)
    requires DistinctKeys(flat) && x.url != ""
    ensures BestCandidate(UrlsOf(flat), NodesOf(flat), x.url, |UrlsOf(flat)|) == UrlParent(flat, x)
  {
    var byUrl := UrlsOf(flat);
    UrlsAreNodes(flat);
    BestCandidateLongest(byUrl, NodesOf(flat), x.url, |byUrl|);
    assert byUrl[..|byUrl|] == byUrl;
    LongestUnique(byUrl, x.url, BestCandidate(byUrl, NodesOf(flat), x.url, |byUrl|), LongestDirPrefix(byUrl, x.url));
  }

  /** The candidate loop of pass 2 for one item's URL. */
  method LongestParent(byUrl: seq<string>, nodes: map<string, MenuItem>, url: string)
    returns (candidate: Option<string>)
    ensures candidate == BestCandidate(byUrl, nodes, url, |byUrl|)
  {
    candidate := None;
    var i := 0;
    while i < |byUrl|
      invariant 0 <= i <= |byUrl|
      invariant candidate == BestCandidate(byUrl, nodes, url, i)
    {
      var u := byUrl[i];
      if u != url && u + "/" <= url {
        if u in nodes {
          if candidate.None? || |nodes[u].url| > |nodes[candidate.value].url| {
            candidate := Some(u);
          }
        }
      }
      i := i + 1;
    }
  }

  /** The parent an item has after pass 2: its explicit parent, else its URL parent. */
  function UrlStage(flat: seq<MenuItem>, x: MenuItem): (r: Option<string>)
    ensures ExplicitParent(flat, x).Some? ==> r == ExplicitParent(flat, x)
    ensures ExplicitParent(flat, x).None? && r.Some? ==> r.value in UrlsOf(flat) && IsDirPrefix(r.value, x.url)
    ensures ExplicitParent(flat, x).None? && x.url == "" ==> r.None?
  {
    var e := ExplicitParent(flat, x);
    if e.Some? then e else UrlParent(flat, x)
  }

  /** Pass 2 over the first `n` items: an unassigned item with a URL goes under its candidate, if any. */
  function UrlPass(flat: seq<MenuItem>, nodes: map<string, MenuItem>, g: Links, n: nat): (r: Links)
    requires n <= |flat| && g.kids.Keys == nodes.Keys
    ensures r.kids.Keys == nodes.Keys
  {
    if n == 0 then g
    else
      var r0 := UrlPass(flat, nodes, g, n - 1);
      var x := flat[n - 1];
      if KeyOf(x) in r0.parent || x.url == "" then r0
      else
        var c := BestCandidate(UrlsOf(flat), nodes, x.url, |UrlsOf(flat)|);
        if c.Some? then Push(r0, c.value, KeyOf(x)) else r0
  }

  /** Pass 2: every unassigned item with a URL is pushed under its longest whole-segment prefix. */
  method AttachByUrl(flat: seq<MenuItem>, nodes: map<string, MenuItem>, kids0: map<string, seq<string>>,
                     done0: set<string>, ghost parent0: map<string, string>)
    returns (kids: map<string, seq<string>>, done: set<string>, ghost parent: map<string, string>)
    requires kids0.Keys == nodes.Keys && done0 == parent0.Keys
    ensures Links(kids, parent) == UrlPass(flat, nodes, Links(kids0, parent0), |flat|) && done == parent.Keys
  {
    var byUrl := UrlsOf(flat);
    kids, done, parent := kids0, done0, parent0;
    var i := 0;
    while i < |flat|
      invariant 0 <= i <= |flat|
      invariant Links(kids, parent) == UrlPass(flat, nodes, Links(kids0, parent0), i) && done == parent.Keys
    {
      var raw := flat[i];
      if KeyOf(raw) !in done && raw.url != "" {
        var candidate := LongestParent(byUrl, nodes, raw.url);
        if candidate.Some? {
          kids := kids[candidate.value := kids[candidate.value] + [KeyOf(raw)]];
          done := done + {KeyOf(raw)};
          parent := parent[KeyOf(raw) := candidate.value];
        }
      }
      i := i + 1;
    }
  }

  /**
   * The parent of item `x` after pass 2, starting from `e`: an item with a URL and no
   * parent yet goes to the candidate, if any.
   */
  function UrlPlace(flat: seq<MenuItem>, nodes: map<string, MenuItem>, x: MenuItem, e: Option<string>): (r: Option<string>)
    ensures e.Some? || x.url == "" ==> r == e
    ensures e.None? && r.Some? ==> r.value in UrlsOf(flat) && r.value in nodes && IsDirPrefix(r.value, x.url)
  {
    if e.Some? || x.url == "" then e else BestCandidate(UrlsOf(flat), nodes, x.url, |UrlsOf(flat)|)
  }

  /** With distinct keys, an item has its explicit parent, else its URL parent, after pass 2. */
  lemma {:induction false} UrlPlaceIsUrlStage(flat: seq<MenuItem>, x: MenuItem)
    requires DistinctKeys(flat)
    ensures UrlPlace(flat, NodesOf(flat), x, ExplicitParent(flat, x)) == UrlStage(flat, x)
  {
    if x.url != "" {
      BestCandidateIsUrlParent(flat, x);
    }
  }

  /** Handling item `n - 1` in pass 2 places it as `UrlPlace` says and leaves any other item with a unique key alone. */
  lemma {:induction false} UrlPassStep(flat: seq<MenuItem>, nodes: map<string, MenuItem>, g: Links, n: nat,
                                       m: int, e: Option<string>)
    requires 0 < n <= |flat| && g.kids.Keys == nodes.Keys
    requires 0 <= m < |flat| && UniqueKey(flat, m) && Records(flat, UrlPass(flat, nodes, g, n - 1).parent, m, e)
    ensures Records(flat, UrlPass(flat, nodes, g, n).parent, m, if m == n - 1 then UrlPlace(flat, nodes, flat[m], e) else e)
  {
    var r0 := UrlPass(flat, nodes, g, n - 1);
    var x := flat[n - 1];
    if KeyOf(x) !in r0.parent && x.url != "" {
      var c := BestCandidate(UrlsOf(flat), nodes, x.url, |UrlsOf(flat)|);
      if c.Some? {
        assert m != n - 1 ==> KeyOf(x) != KeyOf(flat[m]);
        PushRecords(flat, r0, c.value, KeyOf(x), m, e);
      }
    }
  }

  /** Pass 2 over the first `n` items places item `m` (whose key is unique) as `UrlPlace` says. */
  lemma {:induction false} UrlPassAt(flat: seq<MenuItem>, nodes: map<string, MenuItem>, g: Links, n: nat,
                                     m: int, e: Option<string>)
    requires n <= |flat| && g.kids.Keys == nodes.Keys
    requires 0 <= m < |flat| && UniqueKey(flat, m) && Records(flat, g.parent, m, e)
    ensures Records(flat, UrlPass(flat, nodes, g, n).parent, m, if m < n then UrlPlace(flat, nodes, flat[m], e) else e)
  {
    if n > 0 {
      UrlPassAt(flat, nodes, g, n - 1, m, e);
      UrlPassStep(flat, nodes, g, n, m, if m < n - 1 then UrlPlace(flat, nodes, flat[m], e) else e);
    }
  }

  /** Pass 2 keeps the graph well linked. */
  lemma {:induction false} UrlPassLinked(flat: seq<MenuItem>, nodes: map<string, MenuItem>, g: Links, n: nat)
    requires nodes.Keys == KeySet(flat) && n <= |flat| && g.kids.Keys == nodes.Keys && WellLinked(g)
    ensures WellLinked(UrlPass(flat, nodes, g, n))
  {
    if n > 0 {
      UrlPassLinked(flat, nodes, g, n - 1);
      var r0 := UrlPass(flat, nodes, g, n - 1);
      var x := flat[n - 1];
      if KeyOf(x) !in r0.parent && x.url != "" {
        var c := BestCandidate(UrlsOf(flat), nodes, x.url, |UrlsOf(flat)|);
        if c.Some? {
          ItemIsNode(flat, x);
          PushLinked(r0, c.value, KeyOf(x));
        }
      }
    }
  }

  // ----- pass 3: parents without URL, matched by slug -----

  /** Pass 3 for one parent (key `k`, slug `slug`) over the first `i` items. */
  function SlugInner(flat: seq<MenuItem>, g: Links, k: string, slug: string, i: nat): (r: Links)
    requires k in g.kids && i <= |flat|
    ensures r.kids.Keys == g.kids.Keys
  {
    if i == 0 then g
    else
      var r0 := SlugInner(flat, g, k, slug, i - 1);
      var x := flat[i - 1];
      if KeyOf(x) in r0.parent || x.url == "" || !SegmentIs(slug, x.url) then r0
      else Push(r0, k, KeyOf(x))
  }

  /** Every parent in `ps` has a copy among `keys`. */
  predicate ParentsAreNodes(ps: seq<MenuItem>, keys: set<string>) {
    forall i :: 0 <= i < |ps| ==> KeyOf(ps[i]) in keys
  }

  /** The parents without URL are items, so each has a copy. */
  lemma EmptyUrlParentsAreNodes(flat: seq<MenuItem>)
    ensures ParentsAreNodes(EmptyUrlParents(flat), KeySet(flat))
  {
    var ps := EmptyUrlParents(flat);
    forall i | 0 <= i < |ps| ensures KeyOf(ps[i]) in KeySet(flat) {
      ItemIsNode(flat, ps[i]);
    }
  }

  /**
   * Pass 3 over the first `pi` parents without URL `ps`, with slugs `slugs`. The copy of
   * a parent is always there (`EmptyUrlParentsAreNodes`); testing for it keeps the
   * function total.
   */
  function SlugOuter(flat: seq<MenuItem>, ps: seq<MenuItem>, slugs: seq<string>, g: Links, pi: nat): (r: Links)
    requires |slugs| == |ps| && pi <= |slugs|
    ensures r.kids.Keys == g.kids.Keys
  {
    if pi == 0 then g
    else
      var r0 := SlugOuter(flat, ps, slugs, g, pi - 1);
      if KeyOf(ps[pi - 1]) in r0.kids then SlugInner(flat, r0, KeyOf(ps[pi - 1]), slugs[pi - 1], |flat|) else r0
  }

  /** The slug of parent `pi`, as the outer loop of pass 3 computes it. */
  method SlugOfParent(ps: seq<MenuItem>, ghost slugs: seq<string>, pi: nat) returns (slug: string)
    requires SlugsFor(ps, slugs) && pi < |ps|
    ensures slug == slugs[pi]
  {
    slug := SlugifyTitle(ps[pi].title);
  }

  /** The inner loop of pass 3: unassigned items with a URL below `/slug/` go under the copy with key `k`. */
  method AttachUnder(flat: seq<MenuItem>, k: string, slug: string, kids0: map<string, seq<string>>,
                     done0: set<string>, ghost parent0: map<string, string>)
    returns (kids: map<string, seq<string>>, done: set<string>, ghost parent: map<string, string>)
    requires k in kids0 && done0 == parent0.Keys
    ensures Links(kids, parent) == SlugInner(flat, Links(kids0, parent0), k, slug, |flat|) && done == parent.Keys
  {
    kids, done, parent := kids0, done0, parent0;
    var i := 0;
    while i < |flat|
      invariant 0 <= i <= |flat|
      invariant Links(kids, parent) == SlugInner(flat, Links(kids0, parent0), k, slug, i) && done == parent.Keys
    {
      var raw := flat[i];
      if KeyOf(raw) !in done && raw.url != "" && SegmentIs(slug, raw.url) {
        kids := kids[k := kids[k] + [KeyOf(raw)]];
        done := done + {KeyOf(raw)};
        parent := parent[KeyOf(raw) := k];
      }
      i := i + 1;
    }
  }

  /** Pass 3: for each parent without URL in turn, the inner loop with that parent's slug. */
  method AttachBySlug(flat: seq<MenuItem>, ghost slugs: seq<string>,
                      kids0: map<string, seq<string>>, done0: set<string>, ghost parent0: map<string, string>)
    returns (kids: map<string, seq<string>>, done: set<string>, ghost parent: map<string, string>)
    requires SlugsFor(EmptyUrlParents(flat), slugs)
    requires kids0.Keys == KeySet(flat) && done0 == parent0.Keys
    ensures Links(kids, parent) == SlugOuter(flat, EmptyUrlParents(flat), slugs, Links(kids0, parent0), |slugs|)
    ensures done == parent.Keys
  {
    var parents := EmptyUrlParents(flat);
    kids, done, parent := kids0, done0, parent0;
    var pi := 0;
    while pi < |parents|
      invariant 0 <= pi <= |parents|
      invariant Links(kids, parent) == SlugOuter(flat, parents, slugs, Links(kids0, parent0), pi) && done == parent.Keys
    {
      var slug := SlugOfParent(parents, slugs, pi);
      ItemIsNode(flat, parents[pi]);
      kids, done, parent := AttachUnder(flat, KeyOf(parents[pi]), slug, kids, done, parent);
      pi := pi + 1;
    }
  }

  /**
   * The inner loop over the first `i` items places item `m` (whose key is unique) under
   * `k` when it had no parent, has a URL and `slug` is its first segment.
   */
  lemma {:induction false} SlugInnerAt(flat: seq<MenuItem>, g: Links, k: string, slug: string, i: nat,
                                       m: int, e: Option<string>)
    requires k in g.kids && i <= |flat|
    requires 0 <= m < |flat| && UniqueKey(flat, m) && Records(flat, g.parent, m, e)
    ensures
      var x := flat[m];
      Records(flat, SlugInner(flat, g, k, slug, i).parent, m,
              if m < i && e.None? && x.url != "" && SegmentIs(slug, x.url) then Some(k) else e)
  {
    if i > 0 {
      SlugInnerAt(flat, g, k, slug, i - 1, m, e);
    }
  }

  /** Pass 3 over the first `pi` parents places item `m` (whose key is unique) as `SlugPlace` says. */
  lemma {:induction false} SlugOuterAt(flat: seq<MenuItem>, ps: seq<MenuItem>, slugs: seq<string>, g: Links, pi: nat,
                                       m: int, e: Option<string>)
    requires ParentsAreNodes(ps, g.kids.Keys) && |slugs| == |ps| && pi <= |slugs|
    requires 0 <= m < |flat| && UniqueKey(flat, m) && Records(flat, g.parent, m, e)
    ensures Records(flat, SlugOuter(flat, ps, slugs, g, pi).parent, m, SlugPlace(ps, slugs, flat[m], e, pi))
  {
    if pi > 0 {
      SlugOuterAt(flat, ps, slugs, g, pi - 1, m, e);
      var r0 := SlugOuter(flat, ps, slugs, g, pi - 1);
      assert KeyOf(ps[pi - 1]) in r0.kids;
      SlugInnerAt(flat, r0, KeyOf(ps[pi - 1]), slugs[pi - 1], |flat|, m, SlugPlace(ps, slugs, flat[m], e, pi - 1));
    }
  }

  /** The inner loop of pass 3 keeps the graph well linked. */
  lemma {:induction false} SlugInnerLinked(flat: seq<MenuItem>, g: Links, k: string, slug: string, i: nat)
    requires k in g.kids && i <= |flat| && g.kids.Keys == KeySet(flat) && WellLinked(g)
    ensures WellLinked(SlugInner(flat, g, k, slug, i))
  {
    if i > 0 {
      SlugInnerLinked(flat, g, k, slug, i - 1);
      var r0 := SlugInner(flat, g, k, slug, i - 1);
      var x := flat[i - 1];
      if KeyOf(x) !in r0.parent && x.url != "" && SegmentIs(slug, x.url) {
        ItemIsNode(flat, x);
        PushLinked(r0, k, KeyOf(x));
      }
    }
  }

  /** Pass 3 keeps the graph well linked. */
  lemma {:induction false} SlugOuterLinked(flat: seq<MenuItem>, ps: seq<MenuItem>, slugs: seq<string>, g: Links, pi: nat)
    requires g.kids.Keys == KeySet(flat) && WellLinked(g)
    requires |slugs| == |ps| && pi <= |slugs|
    ensures WellLinked(SlugOuter(flat, ps, slugs, g, pi))
  {
    if pi > 0 {
      SlugOuterLinked(flat, ps, slugs, g, pi - 1);
      var r0 := SlugOuter(flat, ps, slugs, g, pi - 1);
      if KeyOf(ps[pi - 1]) in r0.kids {
        SlugInnerLinked(flat, r0, KeyOf(ps[pi - 1]), slugs[pi - 1], |flat|);
      }
    }
  }

  // ----- the maps built before the passes -----

  /** `nodeByKey`: a childless copy per key, the last item with the key winning; every `items` empty. */
  method BuildNodes(flat: seq<MenuItem>) returns (nodes: map<string, MenuItem>, kids: map<string, seq<string>>)
    ensures nodes == NodesOf(flat) && kids == Childless(nodes)
  {
    nodes, kids := map[], map[];
    var i := 0;
    while i < |flat|
      invariant 0 <= i <= |flat|
      invariant nodes == NodesOf(flat[..i]) && kids == Childless(nodes)
    {
      assert flat[..i + 1][..i] == flat[..i];
      nodes := nodes[KeyOf(flat[i]) := Clone(flat[i])];
      kids := kids[KeyOf(flat[i]) := []];
      i := i + 1;
    }
    assert flat[..i] == flat;
  }

  /** `orderIndex`: each key mapped to the index of the last item carrying it. */
  method BuildOrder(flat: seq<MenuItem>) returns (orderIndex: map<string, int>)
    ensures orderIndex == OrderOf(flat)
  {
    orderIndex := map[];
    var i := 0;
    while i < |flat|
      invariant 0 <= i <= |flat|
      invariant orderIndex == OrderOf(flat[..i])
    {
      assert flat[..i + 1][..i] == flat[..i];
      orderIndex := orderIndex[KeyOf(flat[i]) := i];
      i := i + 1;
    }
    assert flat[..i] == flat;
  }

  // ----- the three passes together -----

  /** The graph after the three passes, from childless copies and no parents. */
  function Placed(flat: seq<MenuItem>, slugs: seq<string>): (g: Links)
    requires |slugs| == |EmptyUrlParents(flat)|
    ensures g.kids.Keys == KeySet(flat)
  {
    var nodes := NodesOf(flat);
    var g1 := ExplicitPass(flat, Links(Childless(nodes), map[]), |flat|);
    var g2 := UrlPass(flat, nodes, g1, |flat|);
    SlugOuter(flat, EmptyUrlParents(flat), slugs, g2, |slugs|)
  }

  /** With distinct keys the three passes leave the graph well linked. */
  lemma {:induction false} PlacedLinked(flat: seq<MenuItem>, slugs: seq<string>)
    requires DistinctKeys(flat) && |slugs| == |EmptyUrlParents(flat)|
    ensures WellLinked(Placed(flat, slugs))
  {
    var nodes := NodesOf(flat);
    var g0 := Links(Childless(nodes), map[]);
    ExplicitPassLinked(flat, g0, |flat|);
    var g1 := ExplicitPass(flat, g0, |flat|);
    UrlPassLinked(flat, nodes, g1, |flat|);
    SlugOuterLinked(flat, EmptyUrlParents(flat), slugs, UrlPass(flat, nodes, g1, |flat|), |slugs|);
  }

  /** With distinct keys the three passes record for every item the parent `ParentOf` names, and none when it names none. */
  lemma {:induction false} PlacedAt(flat: seq<MenuItem>, slugs: seq<string>, m: int)
    requires DistinctKeys(flat) && SlugsFor(EmptyUrlParents(flat), slugs) && 0 <= m < |flat|
    ensures Records(flat, Placed(flat, slugs).parent, m, ParentOf(flat, flat[m]))
  {
    var nodes := NodesOf(flat);
    var x := flat[m];
    var g0 := Links(Childless(nodes), map[]);
    ExplicitPassAt(flat, g0, |flat|, m);
    var g1 := ExplicitPass(flat, g0, |flat|);
    UrlPassAt(flat, nodes, g1, |flat|, m, ExplicitParent(flat, x));
    UrlPlaceIsUrlStage(flat, x);
    EmptyUrlParentsAreNodes(flat);
    SlugOuterAt(flat, EmptyUrlParents(flat), slugs, UrlPass(flat, nodes, g1, |flat|), |slugs|, m, UrlStage(flat, x));
    SlugPlaceAll(flat, slugs, x);
  }

  // ----- roots -----

  /** The keys of the items not marked assigned, in item order; an item whose key repeats is listed once per occurrence. */
  function RootsOf(flat: seq<MenuItem>, done: set<string>): (roots: seq<string>)
    ensures forall k :: k in roots <==> k in KeySet(flat) && k !in done
  {
    if flat == [] then []
    else
      var last := flat[|flat| - 1];
      KeySetSnoc(flat);
      RootsOf(flat[..|flat| - 1], done) + (if KeyOf(last) in done then [] else [KeyOf(last)])
  }

  /** With distinct keys no root is listed twice. */
  lemma {:induction false} RootsNoDup(flat: seq<MenuItem>, done: set<string>)
    requires DistinctKeys(flat)
    ensures NoDup(RootsOf(flat, done))
  {
    if flat != [] {
      var n := |flat| - 1;
      var init := flat[..n];
      forall m | 0 <= m < |init|
        ensures UniqueKey(init, m)
      {
        assert UniqueKey(flat, m);
      }
      RootsNoDup(init, done);
      assert UniqueKey(flat, n);
      assert KeyOf(flat[n]) !in KeySet(init);
    }
  }

  /** The roots loop: each item whose key is not assigned contributes its node, in item order. */
  method CollectRoots(flat: seq<MenuItem>, done: set<string>) returns (roots: seq<string>)
    ensures roots == RootsOf(flat, done)
  {
    roots := [];
    var i := 0;
    while i < |flat|
      invariant 0 <= i <= |flat|
      invariant roots == RootsOf(flat[..i], done)
    {
      assert flat[..i + 1][..i] == flat[..i];
      if KeyOf(flat[i]) !in done {
        roots := roots + [KeyOf(flat[i])];
      }
      i := i + 1;
    }
    assert flat[..i] == flat;
  }

  // ----- ordering by original position -----

  /** The sort key `orderIndex.get(key) ?? 0`. */
  function Rank(order: map<string, int>, k: string): int {
    if k in order then order[k] else 0
  }

  /** Each element ranks no lower than the one before it. */
  predicate SortedByRank(order: map<string, int>, s: seq<string>) {
    |s| <= 1 || (SortedByRank(order, s[..|s| - 1]) && Rank(order, s[|s| - 2]) <= Rank(order, s[|s| - 1]))
  }

  /** A sorted list is ordered between any two of its positions, not only neighbours. */
  lemma {:induction false} SortedPairwise(order: map<string, int>, s: seq<string>)
    requires SortedByRank(order, s)
    ensures forall a, b :: 0 <= a < b < |s| ==> Rank(order, s[a]) <= Rank(order, s[b])
  {
    if |s| > 1 {
      var n := |s| - 1;
      var init := s[..n];
      SortedPairwise(order, init);
      forall a, b | 0 <= a < b < |s|
        ensures Rank(order, s[a]) <= Rank(order, s[b])
      {
        assert init[a] == s[a];
        if b < n {
          assert init[b] == s[b];
        } else {
          assert init[n - 1] == s[n - 1];
        }
      }
    }
  }

  /** Insert `x` into `t` after every element of equal or lower rank from the right, as a stable sort places a later element. */
  function InsertByRank(order: map<string, int>, x: string, t: seq<string>): (r: seq<string>)
    ensures |r| == |t| + 1 && x in r
  {
    if t == [] then [x]
    else if Rank(order, t[|t| - 1]) <= Rank(order, x) then t + [x]
    else InsertByRank(order, x, t[..|t| - 1]) + [t[|t| - 1]]
  }

  /** `Array.prototype.sort(sorter)`, which is stable: insertion of each element in turn. */
  function SortByRank(order: map<string, int>, s: seq<string>): (r: seq<string>)
    ensures |r| == |s|
  {
    if s == [] then []
    else InsertByRank(order, s[|s| - 1], SortByRank(order, s[..|s| - 1]))
  }

  /** Inserting adds exactly the one element. */
  lemma {:induction false} InsertPermutes(order: map<string, int>, x: string, t: seq<string>)
    ensures multiset(InsertByRank(order, x, t)) == multiset(t) + multiset{x}
  {
    if t != [] && Rank(order, t[|t| - 1]) > Rank(order, x) {
      InsertPermutes(order, x, t[..|t| - 1]);
      assert t == t[..|t| - 1] + [t[|t| - 1]];
    }
  }

  /** Sorting rearranges and neither adds nor drops an element. */
  lemma {:induction false} SortPermutes(order: map<string, int>, s: seq<string>)
    ensures multiset(SortByRank(order, s)) == multiset(s)
  {
    if s != [] {
      var init, x := s[..|s| - 1], s[|s| - 1];
      assert multiset(s) == multiset(init) + multiset{x} by {
        assert s == init + [x];
      }
      assert multiset(SortByRank(order, init)) == multiset(init) by {
        SortPermutes(order, init);
      }
      InsertPermutes(order, x, SortByRank(order, init));
    }
  }

  lemma {:induction false} InsertSorted(order: map<string, int>, x: string, t: seq<string>)
    requires SortedByRank(order, t)
    ensures SortedByRank(order, InsertByRank(order, x, t))
  {
    if t != [] {
      var n := |t| - 1;
      var l, init := t[n], t[..n];
      if Rank(order, x) < Rank(order, l) {
        InsertSorted(order, x, init);
        var r0 := InsertByRank(order, x, init);
        var r := r0 + [l];
        assert r[..|r| - 1] == r0;
        if init != [] && Rank(order, init[n - 1]) > Rank(order, x) {
          assert r0 == InsertByRank(order, x, init[..n - 1]) + [init[n - 1]];
          assert init[n - 1] == t[n - 1] && t[..n] == init;
        }
      } else {
        var r := t + [x];
        assert r[..|r| - 1] == t;
      }
    }
  }

  /** The sorted list is ordered by original position. */
  lemma {:induction false} SortSorted(order: map<string, int>, s: seq<string>)
    ensures SortedByRank(order, SortByRank(order, s))
  {
    if s != [] {
      SortSorted(order, s[..|s| - 1]);
      InsertSorted(order, s[|s| - 1], SortByRank(order, s[..|s| - 1]));
    }
  }

  /** Appending an element that ranks no lower than the last one to a list sorting leaves alone keeps it so. */
  lemma SortSnoc(order: map<string, int>, t: seq<string>, x: string)
    requires SortByRank(order, t) == t
    requires t == [] || Rank(order, t[|t| - 1]) <= Rank(order, x)
    ensures SortByRank(order, t + [x]) == t + [x]
  {
    assert (t + [x])[..|t|] == t;
  }

  /** A list already in order is left as it is. */
  lemma {:induction false} SortKeepsSorted(order: map<string, int>, s: seq<string>)
    requires SortedByRank(order, s)
    ensures SortByRank(order, s) == s
  {
    if s != [] {
      var n := |s| - 1;
      var init := s[..n];
      assert SortByRank(order, init) == init by {
        SortKeepsSorted(order, init);
      }
      assert init == [] || Rank(order, init[n - 1]) <= Rank(order, s[n]) by {
        assert n > 0 ==> init[n - 1] == s[n - 1];
      }
      assert init + [s[n]] == s;
      SortSnoc(order, init, s[n]);
    }
  }

  /** Sorting twice gives what sorting once gives, so sorting a node reached twice changes nothing. */
  lemma SortTwice(order: map<string, int>, s: seq<string>)
    ensures SortByRank(order, SortByRank(order, s)) == SortByRank(order, s)
  {
    SortSorted(order, s);
    SortKeepsSorted(order, SortByRank(order, s));
  }

  /** Two equal entries make the element occur at least twice. */
  lemma CountRepeated(t: seq<string>, a: int, b: int)
    requires 0 <= a < b < |t|
    ensures t[a] == t[b] ==> multiset(t)[t[a]] >= 2
  {
    assert t == t[..b] + t[b..];
    assert t[a] in t[..b] && t[b] in t[b..];
    assert multiset(t) == multiset(t[..b]) + multiset(t[b..]);
  }

  /** In a list without repetitions every element occurs at most once. */
  lemma {:induction false} CountNoDup(s: seq<string>, y: string)
    requires NoDup(s)
    ensures multiset(s)[y] <= 1
  {
    if s != [] {
      var init := s[..|s| - 1];
      assert NoDup(init);
      CountNoDup(init, y);
      assert s == init + [s[|s| - 1]];
      assert s[|s| - 1] !in init;
    }
  }

  /** A list without repetitions keeps that property under any rearrangement. */
  lemma NoDupPermutation(s: seq<string>, t: seq<string>)
    requires multiset(s) == multiset(t) && NoDup(s)
    ensures NoDup(t)
  {
    forall a, b | 0 <= a < b < |t|
      ensures t[a] != t[b]
    {
      CountRepeated(t, a, b);
      CountNoDup(s, t[a]);
    }
  }

  // ----- sorting the first two levels -----

  /** The children of the roots, root by root: the nodes whose own lists the last loop sorts. */
  function SecondLevel(roots: seq<string>, kids: map<string, seq<string>>): seq<string> {
    if roots == [] then []
    else
      var r := roots[|roots| - 1];
      SecondLevel(roots[..|roots| - 1], kids) + (if r in kids then kids[r] else [])
  }

  /** A node is in the second level exactly when some root lists it. */
  lemma {:induction false} SecondLevelMembers(roots: seq<string>, kids: map<string, seq<string>>, c: string)
    ensures c in SecondLevel(roots, kids) <==> exists r :: r in roots && r in kids && c in kids[r]
  {
    if roots != [] {
      var n := |roots| - 1;
      SecondLevelMembers(roots[..n], kids, c);
      assert roots == roots[..n] + [roots[n]];
    }
  }

  /** `kids` is `kids0` with the lists of exactly the nodes in `pick` sorted. */
  ghost predicate SortedAt(order: map<string, int>, kids0: map<string, seq<string>>, kids: map<string, seq<string>>, pick: seq<string>) {
    kids.Keys == kids0.Keys
    && forall k :: k in kids ==> kids[k] == (if k in pick then SortByRank(order, kids0[k]) else kids0[k])
  }

  /** Sorting one more list. */
  lemma SortedAtStep(order: map<string, int>, kids0: map<string, seq<string>>, kids: map<string, seq<string>>, pick: seq<string>, k: string)
    requires SortedAt(order, kids0, kids, pick) && k in kids
    ensures SortedAt(order, kids0, kids[k := SortByRank(order, kids[k])], pick + [k])
  {
    SortTwice(order, kids0[k]);
  }

  /** Sorting a second batch of lists after a first: sorting a list again changes nothing. */
  lemma SortedAtThen(order: map<string, int>, kids0: map<string, seq<string>>, kids1: map<string, seq<string>>,
                     kids2: map<string, seq<string>>, p: seq<string>, q: seq<string>, q': seq<string>)
    requires SortedAt(order, kids0, kids1, p) && SortedAt(order, kids1, kids2, q)
    requires forall x :: x in q <==> x in q'
    ensures SortedAt(order, kids0, kids2, p + q')
  {
    forall k | k in kids2 && k in q
      ensures kids2[k] == SortByRank(order, kids0[k])
    {
      SortTwice(order, kids0[k]);
    }
  }

  /** The children lists after the three sorting statements: those of the roots and of their children sorted, the rest as attached. */
  function SortedLevels(order: map<string, int>, roots: seq<string>, kids: map<string, seq<string>>): (r: map<string, seq<string>>)
    ensures r.Keys == kids.Keys
    ensures forall k :: k in kids && k !in roots && k !in SecondLevel(roots, kids) ==> r[k] == kids[k]
    ensures forall k :: k in kids ==> |r[k]| == |kids[k]|
  {
    map k | k in kids :: if k in roots || k in SecondLevel(roots, kids) then SortByRank(order, kids[k]) else kids[k]
  }

  /** The lists after sorting those of `keys[..n]` in turn. */
  function SortAll(order: map<string, int>, kids: map<string, seq<string>>, keys: seq<string>, n: nat): map<string, seq<string>>
    requires n <= |keys|
  {
    if n == 0 then kids
    else
      var k := SortAll(order, kids, keys, n - 1);
      if keys[n - 1] in k then k[keys[n - 1] := SortByRank(order, k[keys[n - 1]])] else k
  }

  /** The lists after the last loop has visited `roots[..n]`, sorting each visited root's children's lists. */
  function SortNested(order: map<string, int>, kids: map<string, seq<string>>, roots: seq<string>, n: nat): map<string, seq<string>>
    requires n <= |roots|
  {
    if n == 0 then kids
    else
      var k := SortNested(order, kids, roots, n - 1);
      if roots[n - 1] in k then SortAll(order, k, k[roots[n - 1]], |k[roots[n - 1]]|) else k
  }

  /** Sorting a batch of lists in turn sorts each list named once, however often it is named. */
  lemma {:induction false} SortAllSorts(order: map<string, int>, kids: map<string, seq<string>>, keys: seq<string>, n: nat)
    requires n <= |keys|
    ensures SortedAt(order, kids, SortAll(order, kids, keys, n), keys[..n])
  {
    if n > 0 {
      SortAllSorts(order, kids, keys, n - 1);
      assert keys[..n] == keys[..n - 1] + [keys[n - 1]];
      var k := SortAll(order, kids, keys, n - 1);
      if keys[n - 1] in k {
        SortedAtStep(order, kids, k, keys[..n - 1], keys[n - 1]);
      }
    }
  }

  lemma SecondLevelSnoc(roots: seq<string>, kids: map<string, seq<string>>, i: int)
    requires 0 <= i < |roots|
    ensures SecondLevel(roots[..i + 1], kids)
         == SecondLevel(roots[..i], kids) + (if roots[i] in kids then kids[roots[i]] else [])
  {
    assert roots[..i + 1][..i] == roots[..i];
  }

  /** The same nodes in another order. */
  lemma SortSameMembers(order: map<string, int>, s: seq<string>)
    ensures forall x :: x in SortByRank(order, s) <==> x in s
  {
    SortPermutes(order, s);
    forall x
      ensures x in SortByRank(order, s) <==> x in s
    {
      assert x in SortByRank(order, s) <==> x in multiset(SortByRank(order, s));
    }
  }

  /** What the sorting loops have picked once the children of the first `i` roots are done. */
  function LevelPick(roots: seq<string>, kids: map<string, seq<string>>, i: int): seq<string>
    requires 0 <= i <= |roots|
  {
    roots + SecondLevel(roots[..i], kids)
  }

  /** One turn of the last loop: the lists of the children of root `i`, when it has a list, sorted. */
  lemma SortNestedStep(order: map<string, int>, roots: seq<string>, kids0: map<string, seq<string>>,
                       before: map<string, seq<string>>, after: map<string, seq<string>>, i: int)
    requires 0 <= i < |roots|
    requires SortedAt(order, kids0, before, LevelPick(roots, kids0, i))
    requires roots[i] in before ==> SortedAt(order, before, after, before[roots[i]])
    requires roots[i] !in before ==> after == before
    ensures SortedAt(order, kids0, after, LevelPick(roots, kids0, i + 1))
  {
    var r := roots[i];
    var p := LevelPick(roots, kids0, i);
    PickSnoc(roots, kids0, i);
    if r in before {
      assert forall x :: x in before[r] <==> x in kids0[r] by {
        assert r in p by {
          assert p[i] == r;
        }
        SortSameMembers(order, kids0[r]);
      }
      SortedAtThen(order, kids0, before, after, p, before[r], kids0[r]);
    } else {
      assert p + [] == p;
    }
  }

  /** Root `i` adds its children, when it has a list, to what the sorting loops have picked. */
  lemma PickSnoc(roots: seq<string>, kids: map<string, seq<string>>, i: int)
    requires 0 <= i < |roots|
    ensures LevelPick(roots, kids, i + 1) == LevelPick(roots, kids, i) + (if roots[i] in kids then kids[roots[i]] else [])
  {
    SecondLevelSnoc(roots, kids, i);
  }

  /** After the roots' lists, the last loop over the first `n` roots sorts their children's lists as well. */
  lemma {:induction false} SortNestedSorts(order: map<string, int>, kids0: map<string, seq<string>>, roots: seq<string>, n: nat)
    requires n <= |roots|
    ensures SortedAt(order, kids0, SortNested(order, SortAll(order, kids0, roots, |roots|), roots, n), LevelPick(roots, kids0, n))
  {
    var sortedRoots := SortAll(order, kids0, roots, |roots|);
    if n == 0 {
      SortAllSorts(order, kids0, roots, |roots|);
      assert LevelPick(roots, kids0, 0) == roots[..|roots|];
    } else {
      SortNestedSorts(order, kids0, roots, n - 1);
      var before := SortNested(order, sortedRoots, roots, n - 1);
      if roots[n - 1] in before {
        SortAllSorts(order, before, before[roots[n - 1]], |before[roots[n - 1]]|);
        assert before[roots[n - 1]][..|before[roots[n - 1]]|] == before[roots[n - 1]];
      }
      SortNestedStep(order, roots, kids0, before, SortNested(order, sortedRoots, roots, n), n - 1);
    }
  }

  /** The lists after both loops are those `SortedLevels` describes. */
  lemma SortNestedIsLevels(order: map<string, int>, roots: seq<string>, kids0: map<string, seq<string>>)
    ensures SortNested(order, SortAll(order, kids0, roots, |roots|), roots, |roots|) == SortedLevels(order, roots, kids0)
  {
    SortNestedSorts(order, kids0, roots, |roots|);
    assert roots[..|roots|] == roots;
    var got := SortNested(order, SortAll(order, kids0, roots, |roots|), roots, |roots|);
    var want := SortedLevels(order, roots, kids0);
    assert got.Keys == want.Keys;
    forall k | k in got
      ensures got[k] == want[k]
    {
      assert k in LevelPick(roots, kids0, |roots|) <==> k in roots || k in SecondLevel(roots, kids0);
    }
  }

  /** `keys.forEach(k => k.items?.sort(sorter))`: sort the list of every node named, in turn. */
  method SortEach(order: map<string, int>, kids0: map<string, seq<string>>, keys: seq<string>) returns (kids: map<string, seq<string>>)
    ensures kids == SortAll(order, kids0, keys, |keys|)
  {
    kids := kids0;
    var i := 0;
    while i < |keys|
      invariant 0 <= i <= |keys|
      invariant kids == SortAll(order, kids0, keys, i)
    {
      if keys[i] in kids {
        kids := kids[keys[i] := SortByRank(order, kids[keys[i]])];
      }
      i := i + 1;
    }
  }

  /** The roots' lists sorted, then the lists of the roots' children, as the source's last two loops do. */
  method SortLevels(order: map<string, int>, roots: seq<string>, kids0: map<string, seq<string>>) returns (kids: map<string, seq<string>>)
    ensures kids == SortedLevels(order, roots, kids0)
  {
    kids := SortEach(order, kids0, roots);
    ghost var sortedRoots := kids;
    var i := 0;
    while i < |roots|
      invariant 0 <= i <= |roots|
      invariant kids == SortNested(order, sortedRoots, roots, i)
    {
      if roots[i] in kids {
        kids := SortEach(order, kids, kids[roots[i]]);
      }
      i := i + 1;
    }
    SortNestedIsLevels(order, roots, kids0);
  }

  // ----- normalizeMenu -----

  /**
   * The menu `normalizeMenu` builds, as keys: the roots in order, the childless copy of each
   * node, and each node's `items` as the keys of the copies pushed onto it. A copy reached
   * along several paths in the source is one key here.
   */
  datatype Tree = Tree(roots: seq<string>, nodes: map<string, MenuItem>, kids: map<string, seq<string>>)

  /** What `normalizeMenu` returns: the input itself when it is already nested, or the tree it built. */
  datatype Normalized = AsGiven(items: seq<MenuItem>) | Built(tree: Tree)

  /** The tree built from a flat list: the three passes, the roots, and the sorting of the first two levels. */
  function TreeOf(flat: seq<MenuItem>, slugs: seq<string>): (t: Tree)
    requires |slugs| == |EmptyUrlParents(flat)|
    ensures t.nodes == NodesOf(flat) && t.kids.Keys == t.nodes.Keys
    ensures |t.roots| == |RootsOf(flat, Placed(flat, slugs).parent.Keys)|
  {
    var g := Placed(flat, slugs);
    var order := OrderOf(flat);
    var roots := SortByRank(order, RootsOf(flat, g.parent.Keys));
    Tree(roots, NodesOf(flat), SortedLevels(order, roots, g.kids))
  }

  /** `flat.some(i => Array.isArray(i.items) && i.items.length)`. */
  method AnyNested(flat: seq<MenuItem>) returns (nested: bool)
    ensures nested <==> AlreadyNested(flat)
  {
    nested := false;
    var i := 0;
    while i < |flat| && !nested
      invariant 0 <= i <= |flat|
      invariant nested <==> i > 0 && flat[i - 1].items != []
      invariant forall j :: 0 <= j < i - 1 ==> flat[j].items == []
      invariant !nested ==> forall j :: 0 <= j < i ==> flat[j].items == []
    {
      nested := flat[i].items != [];
      i := i + 1;
    }
  }

  /** `normalizeMenu`: a nested list is returned as it is; a flat one is rebuilt into a tree. */
  method NormalizeMenu(flat: seq<MenuItem>) returns (result: Normalized, ghost slugs: seq<string>)
    ensures SlugsFor(EmptyUrlParents(flat), slugs)
    ensures AlreadyNested(flat) ==> result == AsGiven(flat)
    ensures !AlreadyNested(flat) ==> result == Built(TreeOf(flat, slugs))
  {
    slugs := SlugsExist(EmptyUrlParents(flat));
    var nested := AnyNested(flat);
    if nested {
      return AsGiven(flat), slugs;
    }
    var nodes, kids := BuildNodes(flat);
    var done: set<string>;
    ghost var parent: map<string, string>;
    kids, done, parent := AttachExplicit(flat, nodes, kids);
    kids, done, parent := AttachByUrl(flat, nodes, kids, done, parent);
    kids, done, parent := AttachBySlug(flat, slugs, kids, done, parent);
    var roots := CollectRoots(flat, done);
    var orderIndex := BuildOrder(flat);
    roots := SortByRank(orderIndex, roots);
    kids := SortLevels(orderIndex, roots, kids);
    result := Built(Tree(roots, nodes, kids));
  }

  /** `getMenuTree`: the list chosen from the CMS answer, normalised. */
  method GetMenuTree(raw: RawMenu) returns (result: Normalized, ghost slugs: seq<string>)
    ensures SlugsFor(EmptyUrlParents(SelectItems(raw)), slugs)
    ensures AlreadyNested(SelectItems(raw)) ==> result == AsGiven(SelectItems(raw))
    ensures !AlreadyNested(SelectItems(raw)) ==> result == Built(TreeOf(SelectItems(raw), slugs))
  {
    result, slugs := NormalizeMenu(SelectItems(raw));
  }

  // ----- what the built tree satisfies -----

  /** Sorting the first two levels moves nodes within a list and nowhere else. */
  lemma LevelsRearrange(order: map<string, int>, roots: seq<string>, kids: map<string, seq<string>>)
    ensures SortedLevels(order, roots, kids).Keys == kids.Keys
    ensures forall k :: k in kids ==> multiset(SortedLevels(order, roots, kids)[k]) == multiset(kids[k])
  {
    forall k | k in kids
      ensures multiset(SortedLevels(order, roots, kids)[k]) == multiset(kids[k])
    {
      SortPermutes(order, kids[k]);
    }
  }

  /** A list keeps its members through the sorting of the first two levels. */
  lemma LevelMembers(order: map<string, int>, roots: seq<string>, kids: map<string, seq<string>>, k: string, c: string)
    requires k in kids
    ensures k in SortedLevels(order, roots, kids)
    ensures c in SortedLevels(order, roots, kids)[k] <==> c in kids[k]
  {
    SortSameMembers(order, kids[k]);
  }

  /** Each listed child's recorded parent is the node listing it, and no root has a recorded parent. */
  ghost predicate ParentedBy(roots: seq<string>, kids: map<string, seq<string>>, parent: map<string, string>) {
    (forall a, c :: a in kids && c in kids[a] ==> c in parent && parent[c] == a)
    && (forall r :: r in roots ==> r !in parent)
  }

  /** With a parent record per listed child, no node is listed under two parents or both as a root and a child. */
  lemma ParentedOnce(roots: seq<string>, kids: map<string, seq<string>>, parent: map<string, string>)
    requires ParentedBy(roots, kids, parent)
    ensures forall a, b, c :: (a in kids && b in kids && c in kids[a] && c in kids[b]) ==> a == b
    ensures forall r, k :: (r in roots && k in kids) ==> r !in kids[k]
  {
    forall a, b, c | a in kids && b in kids && c in kids[a] && c in kids[b]
      ensures a == b
    {
      assert parent[c] == a && parent[c] == b;
    }
    forall r, k | r in roots && k in kids
      ensures r !in kids[k]
    {
      assert r in kids[k] ==> r in parent;
    }
  }

  /** A well-linked graph keeps its parent records through the sorting of the first two levels. */
  lemma LevelsParented(order: map<string, int>, roots: seq<string>, g: Links)
    requires WellLinked(g) && forall r :: r in roots ==> r !in g.parent
    ensures ParentedBy(roots, SortedLevels(order, roots, g.kids), g.parent)
  {
    var kids := SortedLevels(order, roots, g.kids);
    assert forall a, c :: a in kids && c in kids[a] ==> c in g.kids[a] by {
      forall a, c | a in kids && c in kids[a] ensures c in g.kids[a] {
        LevelMembers(order, roots, g.kids, a, c);
      }
    }
    MembersParented(roots, kids, g);
  }

  /** Lists whose members were listed under the same node in a well-linked graph are parented by it. */
  lemma MembersParented(roots: seq<string>, kids: map<string, seq<string>>, g: Links)
    requires WellLinked(g) && forall r :: r in roots ==> r !in g.parent
    requires forall a, c :: a in kids && c in kids[a] ==> a in g.kids && c in g.kids[a]
    ensures ParentedBy(roots, kids, g.parent)
  {
  }

  /** A well-linked graph lists no node twice in a list, and sorting keeps it so. */
  lemma LevelsNoDup(order: map<string, int>, roots: seq<string>, g: Links)
    requires WellLinked(g)
    ensures forall k :: k in SortedLevels(order, roots, g.kids) ==> NoDup(SortedLevels(order, roots, g.kids)[k])
  {
    var kids := SortedLevels(order, roots, g.kids);
    LevelsRearrange(order, roots, g.kids);
    forall k | k in kids
      ensures NoDup(kids[k])
    {
      NoDupPermutation(g.kids[k], kids[k]);
    }
  }

  /** The roots of the built tree are the items' keys that no pass assigned. */
  lemma TreeRoots(flat: seq<MenuItem>, slugs: seq<string>)
    requires |slugs| == |EmptyUrlParents(flat)|
    ensures forall k :: k in TreeOf(flat, slugs).roots <==> k in KeySet(flat) && k !in Placed(flat, slugs).parent
  {
    var g := Placed(flat, slugs);
    SortSameMembers(OrderOf(flat), RootsOf(flat, g.parent.Keys));
  }

  /** Each listed child's recorded parent is the node listing it, and no root has a recorded parent. */
  lemma TreeParented(flat: seq<MenuItem>, slugs: seq<string>)
    requires DistinctKeys(flat) && |slugs| == |EmptyUrlParents(flat)|
    ensures ParentedBy(TreeOf(flat, slugs).roots, TreeOf(flat, slugs).kids, Placed(flat, slugs).parent)
  {
    var g := Placed(flat, slugs);
    PlacedLinked(flat, slugs);
    TreeRoots(flat, slugs);
    LevelsParented(OrderOf(flat), TreeOf(flat, slugs).roots, g);
  }

  /**
   * Where an item ends up: it is a root exactly when no heuristic names a parent for it,
   * and otherwise it is listed under the parent `ParentOf` names.
   */
  lemma TreePlacesItem(flat: seq<MenuItem>, slugs: seq<string>, m: int)
    requires DistinctKeys(flat) && SlugsFor(EmptyUrlParents(flat), slugs) && 0 <= m < |flat|
    ensures KeyOf(flat[m]) in TreeOf(flat, slugs).roots <==> ParentOf(flat, flat[m]).None?
    ensures ParentOf(flat, flat[m]).Some? ==>
      (ParentOf(flat, flat[m]).value in TreeOf(flat, slugs).kids
       && KeyOf(flat[m]) in TreeOf(flat, slugs).kids[ParentOf(flat, flat[m]).value])
  {
    var g := Placed(flat, slugs);
    var t := TreeOf(flat, slugs);
    var k := KeyOf(flat[m]);
    PlacedAt(flat, slugs, m);
    PlacedLinked(flat, slugs);
    ItemIsNode(flat, flat[m]);
    TreeRoots(flat, slugs);
    if k in g.parent {
      LevelsRearrange(OrderOf(flat), t.roots, g.kids);
      assert k in multiset(g.kids[g.parent[k]]);
    }
  }

  /** No node is listed twice: not among the roots, not in one list, not under two parents, and not both as a root and a child. */
  lemma TreeListsOnce(flat: seq<MenuItem>, slugs: seq<string>)
    requires DistinctKeys(flat) && |slugs| == |EmptyUrlParents(flat)|
    ensures NoDup(TreeOf(flat, slugs).roots)
    ensures forall k :: k in TreeOf(flat, slugs).kids ==> NoDup(TreeOf(flat, slugs).kids[k])
    ensures forall a, b, c ::
      (a in TreeOf(flat, slugs).kids && b in TreeOf(flat, slugs).kids
       && c in TreeOf(flat, slugs).kids[a] && c in TreeOf(flat, slugs).kids[b]) ==> a == b
    ensures forall r, k ::
      (r in TreeOf(flat, slugs).roots && k in TreeOf(flat, slugs).kids) ==> r !in TreeOf(flat, slugs).kids[k]
  {
    var g := Placed(flat, slugs);
    var t := TreeOf(flat, slugs);
    var roots := RootsOf(flat, g.parent.Keys);
    RootsNoDup(flat, g.parent.Keys);
    SortPermutes(OrderOf(flat), roots);
    NoDupPermutation(roots, t.roots);
    PlacedLinked(flat, slugs);
    LevelsNoDup(OrderOf(flat), t.roots, g);
    TreeParented(flat, slugs);
    ParentedOnce(t.roots, t.kids, g.parent);
  }

  /** The roots, their lists and their children's lists are in the order of the items' last positions in the input. */
  lemma TreeOrdered(flat: seq<MenuItem>, slugs: seq<string>)
    requires |slugs| == |EmptyUrlParents(flat)|
    ensures SortedByRank(OrderOf(flat), TreeOf(flat, slugs).roots)
    ensures forall r ::
      (r in TreeOf(flat, slugs).roots && r in TreeOf(flat, slugs).kids) ==> SortedByRank(OrderOf(flat), TreeOf(flat, slugs).kids[r])
    ensures forall r, c ::
      (r in TreeOf(flat, slugs).roots && r in TreeOf(flat, slugs).kids
       && c in TreeOf(flat, slugs).kids[r] && c in TreeOf(flat, slugs).kids)
      ==> SortedByRank(OrderOf(flat), TreeOf(flat, slugs).kids[c])
  {
    var g := Placed(flat, slugs);
    var t := TreeOf(flat, slugs);
    var order := OrderOf(flat);
    SortSorted(order, RootsOf(flat, g.parent.Keys));
    forall r | r in t.roots && r in t.kids
      ensures SortedByRank(order, t.kids[r])
    {
      SortSorted(order, g.kids[r]);
    }
    forall r, c | r in t.roots && r in t.kids && c in t.kids[r] && c in t.kids
      ensures SortedByRank(order, t.kids[c])
    {
      SortSameMembers(order, g.kids[r]);
      SecondLevelMembers(t.roots, g.kids, c);
      SortSorted(order, g.kids[c]);
    }
  }

  /** `p` is a chain of nodes starting at a root, each listed under the one before: what rendering the menu walks. */
  ghost predicate IsPath(roots: seq<string>, kids: map<string, seq<string>>, p: seq<string>) {
    |p| > 0 && p[0] in roots
    && forall i :: 0 <= i < |p| - 1 ==> p[i] in kids && p[i + 1] in kids[p[i]]
  }

  lemma {:induction false} PathAvoidsSelfParented(roots: seq<string>, kids: map<string, seq<string>>,
                                                  parent: map<string, string>, p: seq<string>, k: string, i: nat)
    requires ParentedBy(roots, kids, parent) && IsPath(roots, kids, p)
    requires k in parent && parent[k] == k && i < |p|
    ensures p[i] != k
  {
    if i > 0 {
      PathAvoidsSelfParented(roots, kids, parent, p, k, i - 1);
      assert parent[p[i]] == p[i - 1];
    }
  }

  /** A node recorded as its own parent lies on no path from a root. */
  lemma SelfParentedOffPaths(roots: seq<string>, kids: map<string, seq<string>>, parent: map<string, string>, k: string)
    requires ParentedBy(roots, kids, parent) && k in parent && parent[k] == k
    ensures forall p :: IsPath(roots, kids, p) ==> k !in p
  {
    forall p | IsPath(roots, kids, p)
      ensures k !in p
    {
      forall i | 0 <= i < |p|
        ensures p[i] != k
      {
        PathAvoidsSelfParented(roots, kids, parent, p, k, i);
      }
    }
  }

  /**
   * An item the heuristics place under itself (an explicit parent naming its own key) is
   * listed under itself, is no root, and so lies on no path from a root: the menu drops it.
   */
  lemma TreeDropsSelfParented(flat: seq<MenuItem>, slugs: seq<string>, m: int)
    requires DistinctKeys(flat) && SlugsFor(EmptyUrlParents(flat), slugs) && 0 <= m < |flat|
    requires ParentOf(flat, flat[m]) == Some(KeyOf(flat[m]))
    ensures KeyOf(flat[m]) !in TreeOf(flat, slugs).roots
    ensures KeyOf(flat[m]) in TreeOf(flat, slugs).kids && KeyOf(flat[m]) in TreeOf(flat, slugs).kids[KeyOf(flat[m])]
    ensures forall p :: IsPath(TreeOf(flat, slugs).roots, TreeOf(flat, slugs).kids, p) ==> KeyOf(flat[m]) !in p
  {
    var t := TreeOf(flat, slugs);
    var k := KeyOf(flat[m]);
    TreePlacesItem(flat, slugs, m);
    TreeParented(flat, slugs);
    PlacedAt(flat, slugs, m);
    SelfParentedOffPaths(t.roots, t.kids, Placed(flat, slugs).parent, k);
  }
}
