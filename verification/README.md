# ColibriV site core in Dafny

The ColibriV web site is a Next.js application whose pages are built from content held in a
Drupal CMS. This project models, in Dafny, the logic of the site that does more than lay out
markup, and proves what that logic guarantees:

- **The contact endpoint** (`POST /api/contact`): the honeypot, the reCAPTCHA v3 verdict
  (success, then action, then a score of at least 0.5), the choice of one mail provider
  (Monkeysmail, or the Drupal webform when `CONTACT_DESTINATION` is "drupal"), the message
  and webform payloads, and the four kinds of answer. The outside services are an object
  whose answers are given and whose requests are logged, so the proofs speak about which
  requests are made, in what order, and never before the token check passes.
- **The header menu** (`normalizeMenu`, `slugifyTitle`, `getMenuTree`): a flat CMS menu is
  turned into a tree of at most three sorted levels. Explicit parents come first, then the
  longest URL that is a path-segment prefix, then a URL-less parent whose slugified title is
  the first URL segment; everything else is a root. `normalizeMenu` is a method over maps
  standing for `nodeByKey` and the `items` arrays it mutates, proved against functions that
  state each pass.
- **The CMS blocks** (eighteen block components): how each picks its rows by `field_path`
  (exact, tolerant exact-or-prefix with fallback to every row, or first match), how links,
  media and embed URLs are normalised, and what each block renders for each row, including
  its defaults, its placeholders and the cases where it renders nothing.
- **The news listing** (`/news`) and **the latest-articles block**: page and page-size
  clamps, the request filters, excerpts, tag stripping, media and link fallbacks, and the
  pager links.
- **Client state**: the home-page hero rotator (brand phases and the rotating word) and the
  navigation client (drawer, accordion submenus, icons and styles), each a class whose
  methods are the events the component reacts to.
- **The footer**: menu shape selection, link fallbacks and the three fixed columns.

Modules follow the source files: `ContactRoute`, `HeaderNav` (with `Menus`, `MenuLinks` and
`Slug`), one module per block component, `NewsPage`, `LatestArticles`, `HeroRotator`,
`NavClient` and `Footer`. `BlockKit` holds what the block files each define for themselves
in the same way (`norm`, the three row-selection variants, `linkFromDrupal`,
`normalizeLink`, `absUrl`, `toEmbedUrl`, the media renderer); `Text` and `Html` model the
JavaScript string operations used (`trim`, `toLowerCase`, `split`, `join`, the tag and
white-space regular expressions); `Common` holds `Option` and `Fetched`, the outcome of a
CMS request (its value, or a failure).

## Model

| member | source | states |
|---|---|---|
| HeaderNav.OrderOf | components/navigation/HeaderNav.tsx:107-108 | `orderIndex` has exactly the items' keys, and each key maps to a position whose item carries that key |
| HeaderNav.NodesOf | components/navigation/HeaderNav.tsx:34-36 | `nodeByKey` has exactly the items' keys |
| HeaderNav.NodesOfLast | components/navigation/HeaderNav.tsx:36 | the copy stored under a key is the childless copy of the last item with that key (later `set` calls overwrite earlier ones) |
| HeaderNav.OrderOfUnique | components/navigation/HeaderNav.tsx:107-108 | an item whose key no other item shares is the one `orderIndex` and `nodeByKey` record for that key |
| HeaderNav.ExplicitParent | components/navigation/HeaderNav.tsx:40-47 | an explicit parent is used only when `parentKey` gives a non-empty key that names an existing node |
| HeaderNav.UrlsOf | components/navigation/HeaderNav.tsx:57 | `byUrl` holds only non-empty URLs, each the URL of some item |
| HeaderNav.UrlsAreNodes | components/navigation/HeaderNav.tsx:57-65 | with distinct keys, every URL in `byUrl` finds a node, and that node has that URL |
| HeaderNav.LongestUnique | components/navigation/HeaderNav.tsx:60-71 | the longest whole-segment prefix of a URL is unique |
| HeaderNav.LongestDirPrefix | components/navigation/HeaderNav.tsx:60-71 | the result is the longest URL that is a different URL and a prefix of the item's URL followed by "/", and it is None exactly when no URL qualifies |
| HeaderNav.UrlParentIsWholeSegment | components/navigation/HeaderNav.tsx:63 | a URL parent is a proper prefix ending at a "/" boundary, so "/tech" is never the parent of "/technology" |
| HeaderNav.EmptyUrlParents | components/navigation/HeaderNav.tsx:80 | `parentsWithEmptyUrl` holds only items with an empty URL and a non-empty title |
| HeaderNav.SlugParent | components/navigation/HeaderNav.tsx:82-93 | a parent found by the title-slug heuristic is the key of a parent without URL whose slug is the first URL segment |
| HeaderNav.ParentOf | components/navigation/HeaderNav.tsx:43-95 | the parent an item ends up under: the explicit parent whenever there is one; otherwise the URL parent or the slug parent; a root only when neither the explicit nor the URL rule applies |
| HeaderNav.UrlParent | components/navigation/HeaderNav.tsx:57-71 | an item without URL has no URL parent; otherwise the URL parent is the longest other `byUrl` URL that prefixes the item's URL plus "/", absent exactly when none does |
| HeaderNav.ItemIsNode | components/navigation/HeaderNav.tsx:36 | every item's key is a key of `nodeByKey`, so the non-null assertions at lines 49, 73, 89 and 100 hold |
| HeaderNav.ParentIsNode | components/navigation/HeaderNav.tsx:47-88 | every parent any of the three passes picks is the key of an existing node |
| HeaderNav.ExplicitParentWins | components/navigation/HeaderNav.tsx:43-53 | an explicit parent naming an existing key decides the placement, whatever the URL and slug heuristics would say |
| HeaderNav.UrlBeatsSlug | components/navigation/HeaderNav.tsx:55-77 | without an explicit parent, an item with any whole-segment URL prefix goes under the longest one and not under a title-slug parent |
| HeaderNav.NoUrlNoParent | components/navigation/HeaderNav.tsx:59-86 | an item with an empty URL and no explicit parent is always a root |
| HeaderNav.SlugsExist | components/navigation/HeaderNav.tsx:83 | each parent without URL has a slug |
| HeaderNav.FirstMatchBelow | components/navigation/HeaderNav.tsx:82-93 | the search returns -1 or an index in range whose slug is the first URL segment, with no earlier slug in range matching |
| HeaderNav.FirstMatchBelowNext | components/navigation/HeaderNav.tsx:82-93 | extending the search by one parent keeps an earlier hit, and otherwise finds the new parent exactly when it matches |
| HeaderNav.FirstMatchIsSlugParent | components/navigation/HeaderNav.tsx:82-93 | the index search over all parents agrees with `SlugParent` |
| HeaderNav.SlugParentNone | components/navigation/HeaderNav.tsx:82-93 | no title-slug parent is found if and only if no parent's slug is the first URL segment |
| HeaderNav.SlugParentFirst | components/navigation/HeaderNav.tsx:82-93 | when several parents match, the first in input order wins |
| HeaderNav.SlugPlaceFirst | components/navigation/HeaderNav.tsx:80-95 | pass 3 leaves an already assigned item or one without URL alone, and otherwise places it under the first matching parent |
| HeaderNav.SlugPlace | components/navigation/HeaderNav.tsx:80-95 | pass 3 over the first n parents: an assigned item or one without URL keeps what it had; a new parent is one of those n parents whose slug is the first segment of the item's URL |
| HeaderNav.SlugPlaceAll | components/navigation/HeaderNav.tsx:80-95 | after pass 3 an item has the parent chosen by the explicit, URL and slug rules, in that priority |
| HeaderNav.ExplicitPass | components/navigation/HeaderNav.tsx:44-53 | pass 1 adds no node and removes none |
| HeaderNav.AttachExplicit | components/navigation/HeaderNav.tsx:44-53 | the pass-1 loop computes exactly the graph that `ExplicitPass` describes, and `assigned` is the set of children given a parent |
| HeaderNav.ExplicitPassAt | components/navigation/HeaderNav.tsx:45-52 | after pass 1, an item with a unique key has its explicit parent if it has been visited, and is otherwise still unassigned |
| HeaderNav.ExplicitPassLinked | components/navigation/HeaderNav.tsx:44-53 | with distinct keys, pass 1 keeps the graph consistent: each listed child records its listing node as parent, and no list repeats a child |
| HeaderNav.ExplicitStepLinked | components/navigation/HeaderNav.tsx:46-52 | one push of an unassigned item keeps the graph consistent |
| HeaderNav.BestCandidate | components/navigation/HeaderNav.tsx:61-71 | the candidate, when there is one, is a URL from `byUrl` that names a node and is a different URL that is a prefix followed by "/" |
| HeaderNav.BestCandidateLongest | components/navigation/HeaderNav.tsx:60-71 | when every URL names a node with that URL, the candidate loop's strict-longer rule finds the longest whole-segment prefix |
| HeaderNav.BestCandidateIsUrlParent | components/navigation/HeaderNav.tsx:57-71 | with distinct keys, the candidate loop finds the URL parent |
| HeaderNav.LongestParent | components/navigation/HeaderNav.tsx:61-71 | the `for (const url of byUrl)` loop computes the candidate `BestCandidate` specifies |
| HeaderNav.UrlPass | components/navigation/HeaderNav.tsx:58-77 | pass 2 adds no node and removes none |
| HeaderNav.AttachByUrl | components/navigation/HeaderNav.tsx:58-77 | the pass-2 loop computes exactly the graph that `UrlPass` describes, and `assigned` stays the set of children given a parent |
| HeaderNav.UrlPlaceIsUrlStage | components/navigation/HeaderNav.tsx:58-77 | with distinct keys, after pass 2 an item has its explicit parent, else its URL parent |
| HeaderNav.UrlStage | components/navigation/HeaderNav.tsx:43-77 | after passes 1 and 2 an item has its explicit parent when there is one; otherwise any parent is a `byUrl` URL that is a whole-segment prefix of its URL; an item without URL and without explicit parent has none |
| HeaderNav.UrlPlace | components/navigation/HeaderNav.tsx:58-77 | one pass-2 step: an assigned item or one without URL keeps what it had; an unassigned item gets only a `byUrl` URL that names a node and prefixes its URL |
| HeaderNav.UrlPassStep | components/navigation/HeaderNav.tsx:59-76 | handling one item in pass 2 places only that item and leaves every other uniquely keyed item as it was |
| HeaderNav.UrlPassAt | components/navigation/HeaderNav.tsx:58-77 | pass 2 over a prefix of the items places each visited item with a unique key by the URL rule, and leaves the rest alone |
| HeaderNav.UrlPassLinked | components/navigation/HeaderNav.tsx:58-77 | pass 2 keeps the graph consistent |
| HeaderNav.SlugInner | components/navigation/HeaderNav.tsx:85-93 | the inner loop of pass 3 adds no node and removes none |
| HeaderNav.EmptyUrlParentsAreNodes | components/navigation/HeaderNav.tsx:80-88 | every parent without URL has a node, so the non-null assertion at line 88 holds |
| HeaderNav.SlugOuter | components/navigation/HeaderNav.tsx:81-95 | pass 3 adds no node and removes none |
| HeaderNav.SlugOfParent | components/navigation/HeaderNav.tsx:83 | the slug the outer loop computes for a parent is that parent's slugified title |
| HeaderNav.AttachUnder | components/navigation/HeaderNav.tsx:85-93 | the inner loop computes exactly the graph that `SlugInner` describes |
| HeaderNav.AttachBySlug | components/navigation/HeaderNav.tsx:80-95 | the nested pass-3 loops compute exactly the graph that `SlugOuter` describes |
| HeaderNav.SlugInnerAt | components/navigation/HeaderNav.tsx:85-93 | the inner loop places a uniquely keyed item under this parent exactly when the item was unassigned, has a URL and starts with "/" + slug + "/" |
| HeaderNav.SlugOuterAt | components/navigation/HeaderNav.tsx:81-95 | pass 3 over the first parents places each uniquely keyed item under the first matching parent, if it was still unassigned |
| HeaderNav.SlugInnerLinked | components/navigation/HeaderNav.tsx:85-93 | the inner loop keeps the graph consistent |
| HeaderNav.SlugOuterLinked | components/navigation/HeaderNav.tsx:81-95 | pass 3 keeps the graph consistent |
| HeaderNav.BuildNodes | components/navigation/HeaderNav.tsx:34-36 | the `forEach` builds `nodeByKey` with the last item per key winning, and every copy has an empty `items` list |
| HeaderNav.BuildOrder | components/navigation/HeaderNav.tsx:107-108 | the `forEach` builds `orderIndex`, with the last position per key winning |
| HeaderNav.Placed | components/navigation/HeaderNav.tsx:43-95 | the three passes keep the node set equal to the items' keys |
| HeaderNav.PlacedLinked | components/navigation/HeaderNav.tsx:43-95 | with distinct keys, the three passes leave every child listed once, under the parent it records |
| HeaderNav.PlacedAt | components/navigation/HeaderNav.tsx:43-95 | with distinct keys, the three passes give every item exactly the parent the priority rules choose, and no parent when they choose none |
| HeaderNav.RootsOf | components/navigation/HeaderNav.tsx:98-104 | a key is a root if and only if it is an item's key and not assigned |
| HeaderNav.RootsNoDup | components/navigation/HeaderNav.tsx:98-104 | with distinct keys, no root is listed twice |
| HeaderNav.CollectRoots | components/navigation/HeaderNav.tsx:98-104 | the roots loop collects the unassigned items' keys in item order |
| HeaderNav.SortedPairwise | components/navigation/HeaderNav.tsx:109-111 | in a list sorted by `sorter`, any earlier element ranks no higher than any later one |
| HeaderNav.InsertPermutes | components/navigation/HeaderNav.tsx:111 | inserting an element adds exactly that element |
| HeaderNav.SortPermutes | components/navigation/HeaderNav.tsx:111 | sorting is a permutation: the multiset of elements is unchanged |
| HeaderNav.InsertByRank | components/navigation/HeaderNav.tsx:109-111 | one insertion step of the stable sort adds exactly one element, the inserted one |
| HeaderNav.SortByRank | components/navigation/HeaderNav.tsx:109-111 | `sort(sorter)`, stable: the sorted list has as many elements as the input |
| HeaderNav.InsertSorted | components/navigation/HeaderNav.tsx:111 | inserting into a sorted list keeps it sorted |
| HeaderNav.SortSorted | components/navigation/HeaderNav.tsx:109-111 | the sorted list is ordered by `orderIndex` |
| HeaderNav.SortSnoc | components/navigation/HeaderNav.tsx:111 | appending an element that ranks no lower than the last one to a list the sort leaves alone gives another such list |
| HeaderNav.SortKeepsSorted | components/navigation/HeaderNav.tsx:111 | the sort is stable: a list already in order is unchanged |
| HeaderNav.SortTwice | components/navigation/HeaderNav.tsx:112-115 | sorting is idempotent, so a list sorted by both of the last two loops ends the same |
| HeaderNav.NoDupPermutation | components/navigation/HeaderNav.tsx:111 | a list without repetitions stays without repetitions when sorted |
| HeaderNav.SecondLevelMembers | components/navigation/HeaderNav.tsx:113-115 | a node's list is sorted by `sortDeep` if and only if some root lists that node |
| HeaderNav.SortedAtStep | components/navigation/HeaderNav.tsx:112 | sorting one more list sorts that list and changes no other |
| HeaderNav.SortedAtThen | components/navigation/HeaderNav.tsx:112-115 | two rounds of sorting sort the union of the lists named, since sorting a list twice equals sorting it once |
| HeaderNav.SortAllSorts | components/navigation/HeaderNav.tsx:112 | `roots.forEach(r => r.items?.sort(sorter))` sorts exactly the roots' lists |
| HeaderNav.SortSameMembers | components/navigation/HeaderNav.tsx:111 | sorting keeps the same set of elements |
| HeaderNav.SortNestedStep | components/navigation/HeaderNav.tsx:113-115 | one turn of `sortDeep` sorts the lists of that root's children and nothing else |
| HeaderNav.SortNestedSorts | components/navigation/HeaderNav.tsx:113-115 | `sortDeep` over the first roots sorts exactly the lists of their children |
| HeaderNav.SortNestedIsLevels | components/navigation/HeaderNav.tsx:112-115 | the last two loops together sort the lists of the roots and of the roots' children, and no others |
| HeaderNav.SortEach | components/navigation/HeaderNav.tsx:112 | the loop computes the lists with every named node's list sorted |
| HeaderNav.SortLevels | components/navigation/HeaderNav.tsx:112-115 | the last two loops compute the first two levels sorted, as `SortedLevels` describes |
| HeaderNav.SortedLevels | components/navigation/HeaderNav.tsx:111-115 | after the sorts every node keeps its list and its length; lists of nodes that are neither roots nor roots' children are untouched |
| HeaderNav.AnyNested | components/navigation/HeaderNav.tsx:30 | the result is true if and only if some item already has a non-empty `items` list |
| HeaderNav.NormalizeMenu | components/navigation/HeaderNav.tsx:26-118 | a list that is already nested is returned unchanged; otherwise the result is the tree the three passes, the roots loop and the sorts build |
| HeaderNav.GetMenuTree | components/navigation/HeaderNav.tsx:121-131 | the list is selected from the answer (`items`, then `tree`, then the answer itself, else empty) and then normalised |
| HeaderNav.LevelsRearrange | components/navigation/HeaderNav.tsx:111-115 | the sorts only reorder lists: each keeps its multiset, and no node is added or removed |
| HeaderNav.LevelMembers | components/navigation/HeaderNav.tsx:112-115 | a node is in a sorted list if and only if it was in the list before the sort |
| HeaderNav.ParentedOnce | components/navigation/HeaderNav.tsx:43-104 | when each listed child records its listing node as parent, no node is under two parents or both a root and a child |
| HeaderNav.LevelsParented | components/navigation/HeaderNav.tsx:112-115 | sorting keeps every listed child's recorded parent equal to the listing node |
| HeaderNav.LevelsNoDup | components/navigation/HeaderNav.tsx:112-115 | no list repeats a child before or after sorting |
| HeaderNav.TreeRoots | components/navigation/HeaderNav.tsx:97-104 | the roots of the result are exactly the unassigned items' keys |
| HeaderNav.TreeOf | components/navigation/HeaderNav.tsx:33-117 | the tree built from a flat list has one node per item key and one list per node, and as many roots as unassigned keys |
| HeaderNav.TreeParented | components/navigation/HeaderNav.tsx:43-117 | in the result every listed child sits under its recorded parent, and no root has a parent |
| HeaderNav.TreePlacesItem | components/navigation/HeaderNav.tsx:43-104 | with distinct keys, an item is a root if and only if no rule finds it a parent, and otherwise it is listed under the parent the rules choose |
| HeaderNav.TreeListsOnce | components/navigation/HeaderNav.tsx:26-118 | with distinct keys, no node is repeated among the roots or in a list, none is under two parents, and none is both a root and a child |
| HeaderNav.TreeOrdered | components/navigation/HeaderNav.tsx:106-115 | the roots, their lists and their children's lists are in order of the items' last positions |
| HeaderNav.SelfParentedOffPaths | components/navigation/HeaderNav.tsx:43-117 | a node recorded as its own parent lies on no path from a root |
| HeaderNav.TreeDropsSelfParented | components/navigation/HeaderNav.tsx:47-52 | an item whose explicit parent is its own key is listed under itself and is not a root, so the rendered menu never shows it |
| MenuLinks.KeySetSnoc | components/navigation/HeaderNav.tsx:35-36 | adding an item adds its key to the set of node keys |
| MenuLinks.Push | components/navigation/HeaderNav.tsx:50-51 | `parent.items.push(child)` plus `assigned.add` appends the child to that list only and records that parent |
| MenuLinks.PushLinked | components/navigation/HeaderNav.tsx:50-51 | pushing a not-yet-assigned node keeps the graph consistent |
| MenuLinks.PushNoDup | components/navigation/HeaderNav.tsx:50 | pushing a not-yet-assigned node never repeats a child in a list |
| MenuLinks.PushParents | components/navigation/HeaderNav.tsx:50-51 | after the push every listed child, the new one included, records its listing node as parent |
| MenuLinks.Childless | components/navigation/HeaderNav.tsx:36 | every copy starts with an empty `items` list |
| MenuLinks.PushRecords | components/navigation/HeaderNav.tsx:50-51 | a push changes the recorded parent of the pushed key only |
| Menus.SelectItems | components/navigation/HeaderNav.tsx:123-129 | the flat list is `items` when that is an array, else `tree`, else the answer when it is an array, else empty |
| Slug.ReplaceAmp | components/navigation/HeaderNav.tsx:21 | no "&" remains after `replace(/&/g, "and")` |
| Slug.Collapse | components/navigation/HeaderNav.tsx:22 | the result is empty if and only if the input is, and starts with a dash if and only if the input starts outside [a-z0-9] |
| Slug.CollapseIsDashSeparated | components/navigation/HeaderNav.tsx:22 | after the run replacement only [a-z0-9] and single dashes remain, never two dashes in a row |
| Slug.StripDashes | components/navigation/HeaderNav.tsx:23 | removing leading and trailing dashes from such a string leaves a slug: dash-separated runs of [a-z0-9], no dash at either end |
| Slug.DropMarks | components/navigation/HeaderNav.tsx:18 | no combining mark U+0300 to U+036F remains, and nothing is added |
| Slug.DropMarksOfUnmarked | components/navigation/HeaderNav.tsx:18 | a text without combining marks is left as it is |
| Slug.SlugifyTitle | components/navigation/HeaderNav.tsx:15-24 | whatever the title, `slugifyTitle` gives a slug |
| Slug.LowerOfSlug | components/navigation/HeaderNav.tsx:19 | lower-casing a slug changes nothing |
| Slug.ReplaceAmpOfSlug | components/navigation/HeaderNav.tsx:21 | spelling out "&" changes nothing in a string of slug characters |
| Slug.CollapseOfDashSeparated | components/navigation/HeaderNav.tsx:22 | the run replacement changes nothing in a dash-separated string |
| Slug.StripDashesOfSlug | components/navigation/HeaderNav.tsx:23 | stripping end dashes changes nothing in a slug |
| Slug.SlugifyOfSlug | components/navigation/HeaderNav.tsx:15-24 | a slug slugifies to itself |
| Slug.SlugifyIdempotent | components/navigation/HeaderNav.tsx:15-24 | `slugifyTitle` is idempotent |
| Slug.CollapseSlugPrefix | components/navigation/HeaderNav.tsx:22 | a dash-separated prefix not ending in a dash passes through the run replacement unchanged |
| Slug.LowerAppend | components/navigation/HeaderNav.tsx:19 | lower-casing distributes over concatenation |
| Slug.AmpersandLower | components/navigation/HeaderNav.tsx:19 | for slugs a and b, "a & b" is already lower-case |
| Slug.AmpersandTitleClean | components/navigation/HeaderNav.tsx:19-20 | for non-empty slugs a and b, lower-casing and trimming leave "a & b" as it is |
| Slug.AmpersandUnmarked | components/navigation/HeaderNav.tsx:18 | for slugs a and b, removing combining marks leaves "a & b" as it is |
| Slug.AmpersandSpelledOut | components/navigation/HeaderNav.tsx:19-21 | for slugs a and b, lower-casing, trimming and spelling out "&" turn "a & b" into "a and b" |
| Slug.AmpersandCollapsed | components/navigation/HeaderNav.tsx:22 | for slugs a and b, the run replacement turns "a and b" into "a-and-b" |
| Slug.CollapseSpacedAnd | components/navigation/HeaderNav.tsx:22 | for a slug b, the run replacement turns " and b" into "-and-b" |
| Slug.ReplaceAmpAppend | components/navigation/HeaderNav.tsx:21 | the global "&" replacement works piece by piece over a concatenation |
| Slug.SlugifyAmpersand | components/navigation/HeaderNav.tsx:15-24 | two slugs joined by " & " slugify to the two slugs joined by "-and-": "Storage & Delivery" gives "storage-and-delivery" |
| Text.TrimEnd | app/news/page.tsx:79 | `trimEnd` keeps a prefix, drops only white space, and the prefix does not end in white space |
| Text.Trim | components/navigation/HeaderNav.tsx:20 | the result has no white space at either end and is no longer than the input |
| Text.NonSpace | components/navigation/HeaderNav.tsx:20 | the non-space characters of a text, in order: no longer than the text and free of white space |
| Text.NonSpaceAppend | components/navigation/HeaderNav.tsx:20 | the non-space characters of a concatenation are those of its parts, in order |
| Text.NonSpaceOfTrim | components/navigation/HeaderNav.tsx:20 | `trim()` removes white space only: every other character is kept, in order |
| Text.TrimAvoids | app/api/contact/route.ts:49 | trimming only removes characters, so a character absent from the input is absent from the result |
| Text.TrimOfTrimmed | components/navigation/HeaderNav.tsx:20 | trimming a trimmed string changes nothing |
| Text.TrimIdempotent | components/navigation/HeaderNav.tsx:20 | `trim` is idempotent |
| Text.TrimSnocSpace | components/navigation/HeaderNav.tsx:20 | a trailing white-space character never survives `trim` |
| Text.Lower | components/navigation/HeaderNav.tsx:19 | lower-casing keeps the length and maps every character independently (ASCII letters only) |
| Text.LowerIdempotent | components/navigation/HeaderNav.tsx:19 | lower-casing twice equals lower-casing once |
| Text.DropTrailingSlash | app/api/contact/route.ts:115 | `replace(/\/$/, "")` removes exactly one final "/" when there is one, and otherwise changes nothing |
| Text.Split | app/api/contact/route.ts:39 | `split` on one character gives at least one piece, and no piece contains the separator |
| Text.JoinSplit | app/api/contact/route.ts:39 | joining the pieces with the separator gives back the original string |
| Text.SplitJoin | app/api/contact/route.ts:51 | joining separator-free pieces and splitting again gives back the pieces |
| Text.KeepTrimmed | app/api/contact/route.ts:39 | `.map(s => s.trim()).filter(Boolean)` gives no more pieces than it gets, each non-empty and trimmed |
| Text.KeepTrimmedMembers | app/api/contact/route.ts:39 | a string is among the kept pieces if and only if it is non-empty and the trim of some input piece |
| Text.KeepTrimmedAvoids | app/api/contact/route.ts:39 | a character absent from every piece is absent from every piece kept |
| Text.KeepTrimmedOfClean | app/api/contact/route.ts:39 | non-empty trimmed pieces all pass through unchanged and in order |
| Text.Pieces | app/api/contact/route.ts:39 | every recipient is non-empty, trimmed and free of commas |
| Text.PiecesOfJoin | app/api/contact/route.ts:39 | non-empty trimmed comma-free addresses joined by commas are read back exactly |
| Text.SplitLines | components/blocks/TitleCardsWithBulletsBlock.tsx:90 | `split(/\r?\n/)` gives at least one line |
| Text.TrimmedLines | components/blocks/TitleCardsWithBulletsBlock.tsx:87-93 | every kept line is non-empty and trimmed |
| Text.KeepTrimmedDropCRs | components/blocks/TitleTextCardBlock.tsx:165-168 | since a carriage return is white space, trimming after splitting on `\r?\n` keeps the same lines as splitting on `\n` |
| Text.TrimmedLinesOfJoin | components/blocks/TitleCardsWithBulletsBlock.tsx:87-93 | non-blank trimmed lines joined by line feeds come back out unchanged and in order |
| Text.NatToString | app/news/page.tsx:311-323 | `String(n)` is a non-empty run of decimal digits with no leading zero |
| Text.NatToStringValue | app/news/page.tsx:311-323 | the digits `String(n)` writes denote exactly `n` |
| Html.AfterTag | app/news/page.tsx:74 | a tag that was opened consumes a suffix of the text: up to the next ">", or all of it when no ">" follows |
| Html.ReplaceTagsNoOpen | app/news/page.tsx:74 | after `replace(/<[^>]*>?/gm, …)` no "<" survives |
| Html.ReplaceTagsPlain | app/news/page.tsx:74 | text without "<" passes through the tag replacement unchanged |
| Html.ReplaceOneTag | app/news/page.tsx:74 | one closed tag between plain text is replaced by the replacement string and nothing else changes |
| Html.CollapseSpaces | app/news/page.tsx:74 | `replace(/\s+/g, " ")` gives an empty result exactly for empty input and keeps a first non-space character |
| Html.CollapseKeepsNonSpace | app/news/page.tsx:74 | collapsing white space keeps every non-space character, in order |
| Html.CollapseCollapsed | app/news/page.tsx:74 | after the collapse, every white-space character is a plain space and no two are adjacent |
| Html.CollapseIdentity | app/news/page.tsx:74 | a collapsed text is its own collapse |
| Html.CollapseAvoids | app/news/page.tsx:74 | the collapse adds only plain spaces |
| Html.TrimCollapsed | app/news/page.tsx:74 | trimming keeps a text collapsed |
| Html.StripHtml | app/news/page.tsx:72-75 | `stripHtml` output has no "<", no run of white space and no white space at either end |
| Html.StripHtmlIdempotent | app/news/page.tsx:72-75 | stripping a stripped text again changes nothing |
| Html.StripHtmlKeepsText | app/news/page.tsx:72-75 | the excerpt text keeps every non-space character that lies outside the tags, in order |
| Html.StripTags | components/blocks/LatestArticlesBlock.tsx:26 | the latest-articles tag removal output has no "<" and is trimmed |
| Html.StripTagsIdempotent | components/blocks/LatestArticlesBlock.tsx:26 | removing tags a second time changes nothing |
| Html.StripTagsKeepsText | components/blocks/LatestArticlesBlock.tsx:26 | the trimmed text keeps every non-space character that lies outside the tags, in order |
| Html.TagBetweenWordsJoined | components/blocks/LatestArticlesBlock.tsx:26 | unlike `stripHtml`, a tag between two words leaves no space: "a<br>b" gives "ab" |
| BlockKit.Norm | components/blocks/FaqsBlock.tsx:22-24 | `norm` gives a trimmed string no longer than the value, and "" for null or undefined |
| BlockKit.LowerTrimmed | components/blocks/FaqsBlock.tsx:23 | lower-casing a trimmed string keeps it trimmed |
| BlockKit.NormIdempotent | components/blocks/FaqsBlock.tsx:22-24 | normalising a normalised path changes nothing |
| BlockKit.Filter | components/blocks/BodyMediaBlock.tsx:109-113 | `filter` never lengthens a list |
| BlockKit.FilterMembers | components/blocks/BodyMediaBlock.tsx:109-113 | `filter` keeps exactly the elements that pass the test |
| BlockKit.FilterAppend | components/blocks/BodyMediaBlock.tsx:109-113 | `filter` keeps the order: it distributes over concatenation |
| BlockKit.FilterAll | components/blocks/BodyMediaBlock.tsx:109-113 | when every element passes, `filter` returns the list unchanged |
| BlockKit.FilterNone | components/blocks/BodyMediaBlock.tsx:109-113 | when no element passes, `filter` returns [] |
| BlockKit.Matching | components/blocks/BodyMediaBlock.tsx:109-113 | the path filter never lengthens the list of rows |
| BlockKit.MatchingMembers | components/blocks/BodyMediaBlock.tsx:109-113 | a row is kept if and only if its normalised path equals the wanted one or, being non-empty, starts with it |
| BlockKit.MatchingAppend | components/blocks/BodyMediaBlock.tsx:109-113 | the path filter keeps the rows in their order |
| BlockKit.MatchingAll | components/blocks/BodyMediaBlock.tsx:109-113 | rows that all match are all kept, in order |
| BlockKit.MatchingNone | components/blocks/BodyMediaBlock.tsx:109-113 | rows none of which match filter to [] |
| BlockKit.TolerantFilter | components/blocks/BodyMediaBlock.tsx:106-115 | when some row matches, exactly the matching rows are kept; when none matches, every row is returned; the result is empty only when there are no rows |
| BlockKit.MatchKept | components/blocks/BodyMediaBlock.tsx:109-114 | a matching row is always in the tolerant filter's result |
| BlockKit.FirstMatch | components/blocks/FaqsBlock.tsx:63-67 | the first match, when there is one, is a matching row, and there is none only when no row matches |
| BlockKit.FirstMatchIsHead | components/blocks/FaqsBlock.tsx:63-67 | `filtered[0]` is the first matching row |
| BlockKit.TolerantPick | components/blocks/FaqsBlock.tsx:60-67 | the pick is the first row whose normalised path matches, else the first row, and nothing only when there are no rows |
| BlockKit.PickIsFilterHead | components/blocks/FaqsBlock.tsx:62-67 | the single-block pick is the first row the list filter would render |
| BlockKit.ExactFilter | components/blocks/TitleTextCardBlock.tsx:58-61 | the exact filter keeps exactly the rows whose `field_path` is the given path, with no normalisation and no fallback |
| BlockKit.ExactFilterAppend | components/blocks/TitleTextCardBlock.tsx:58-61 | the exact filter keeps the rows in their order, so the first block it yields is the first exact row |
| BlockKit.ExactWithinTolerant | components/blocks/TitleTextCardBlock.tsx:58-61 | every row the exact filter keeps, the tolerant filter keeps too |
| BlockKit.FetchList | components/blocks/BodyMediaBlock.tsx:100-124 | a failed request gives []; no path gives every row; a path gives the tolerant filter; the result is empty exactly when the request failed or returned no rows |
| BlockKit.FetchOne | components/blocks/FaqsBlock.tsx:55-71 | nothing exactly when the request failed or returned no rows; without a path the first row; with a path the first matching row, else the first row |
| BlockKit.FetchOneIsHead | components/blocks/FaqsBlock.tsx:55-71 | the single-block fetch returns the first block the list fetch would return |
| BlockKit.FetchFilteredHead | components/blocks/FaqsBlock.tsx:67 | `filtered[0] ?? rows[0]` picks the same block as `find(matches) ?? rows[0]` |
| BlockKit.FetchExact | components/blocks/TitleTextCardBlock.tsx:53-61 | a failure propagates, since there is no try/catch; otherwise exactly the rows whose path is the given one |
| BlockKit.StripInternal | components/blocks/FaqsBlock.tsx:35 | a target starting with "internal:" loses exactly that prefix, a bare "internal:" becoming "/"; any other target is unchanged |
| BlockKit.StripInternalInverse | components/blocks/FaqsBlock.tsx:35 | stripping "internal:" undoes prefixing it (the bare scheme gives "/") |
| BlockKit.LinkLabel | components/blocks/FaqsBlock.tsx:32 | the label is never empty and is the link's own title when that is non-empty |
| BlockKit.LinkFromDrupal | components/blocks/FaqsBlock.tsx:26-38 | a link exists if and only if the value is present with a non-empty target; its href is the target with "internal:" stripped and never empty; it is external if and only if the href starts with http(s):// in any case |
| BlockKit.Nth | components/blocks/HeroStackBlock.tsx:131-137 | `list[i]` is the element in range and `undefined` past the end |
| BlockKit.ParsedLinks | components/blocks/BodyMediaBlock.tsx:251-253 | the rendered links are no more than the entries, each with a non-empty href and label |
| BlockKit.ParsedLinksEmpty | components/blocks/BodyMediaBlock.tsx:251-253 | no link renders if and only if no entry is a valid link |
| BlockKit.ParsedLinksAppend | components/blocks/BodyMediaBlock.tsx:251-253 | dropping invalid links keeps the others in order |
| BlockKit.NormalizeLink | components/blocks/TitleDescriptionCardsTextBlock.tsx:39-45 | `normalizeLink` gives a value if and only if the URI is present and not blank, and that value is the trimmed URI with "internal:" stripped, never empty |
| BlockKit.NormalizeTrimmed | components/blocks/TitleDescriptionCardsTextBlock.tsx:39-45 | on a non-empty trimmed URI, `normalizeLink` only strips the scheme |
| BlockKit.NormalizeAgreesWithLinkFromDrupal | components/blocks/TitleDescriptionCardsTextBlock.tsx:39-45 | on a trimmed target, `normalizeLink` and `linkFromDrupal` give the same href, or both give none |
| BlockKit.CardLinkOf | components/blocks/TitleCardsWithBulletsBlock.tsx:151-153 | a card links to `normalizeLink(link_uri)`; its label is the trimmed title, and "Learn more" when the title is empty |
| BlockKit.BlankLinkTitleGivesEmptyLabel | components/blocks/TitleCardsWithBulletsBlock.tsx:153 | a link title of only white space gives an empty label, not "Learn more" |
| BlockKit.ToLink | components/blocks/CardWithLabelBlock.tsx:26-31 | `toLink` gives an empty href, never external, exactly for a missing or empty target; otherwise the href has "internal:" stripped and is external if and only if it starts with http(s):// |
| BlockKit.ToLinkAgreesWithLinkFromDrupal | components/blocks/CardWithLabelBlock.tsx:26-31 | for a present target, `toLink` and `linkFromDrupal` agree on href and external flag |
| BlockKit.DrupalBase | components/blocks/BodyMediaBlock.tsx:34-35 | the CMS base is the variable without one trailing slash, or "" when it is unset |
| BlockKit.Rooted | components/blocks/BodyMediaBlock.tsx:40 | the path starts with "/" and is unchanged when it already did |
| BlockKit.AbsUrl | components/blocks/BodyMediaBlock.tsx:37-42 | `absUrl` gives "" exactly for a missing or empty URL, returns an http(s) URL unchanged, and otherwise gives the base followed by a rooted path |
| BlockKit.SchemeExtends | components/blocks/BodyMediaBlock.tsx:39 | a string starting with http(s):// still does with anything appended |
| BlockKit.AbsUrlIdempotent | components/blocks/BodyMediaBlock.tsx:37-42 | with an http(s) base, making a URL absolute twice gives the same as once |
| BlockKit.RemoveFirstSlash | components/blocks/BodyMediaBlock.tsx:52 | `replace("/", "")` removes one slash when there is one, and otherwise changes nothing |
| BlockKit.Segments | components/blocks/BodyMediaBlock.tsx:56 | `split("/").filter(Boolean)` gives non-empty segments without "/" |
| BlockKit.NonEmpty | components/blocks/BodyMediaBlock.tsx:56 | `filter(Boolean)` keeps exactly the non-empty strings: a string is in the result if and only if it is a non-empty input piece |
| BlockKit.ToEmbedUrl | components/blocks/BodyMediaBlock.tsx:44-63 | the four rules in order, for every parsed URL: a youtube.com host with a non-empty `v` embeds `v`; else a youtu.be host with a non-empty path after its first slash embeds that path; else a vimeo.com host with a non-empty path segment embeds the last segment; else, and for an unparseable URL, the URL is returned as given |
| BlockKit.EmbedYouTuBe | components/blocks/BodyMediaBlock.tsx:51-54 | a youtu.be link, whatever its path and query, embeds its path without the first slash whenever that is non-empty (the youtube.com rule never applies to that host) |
| BlockKit.EmbedVimeo | components/blocks/BodyMediaBlock.tsx:55-58 | a vimeo.com link, whatever its path and query, embeds the last non-empty segment of its path, and is returned as given when the path has none |
| BlockKit.FirstNonEmpty | components/blocks/BodyMediaBlock.tsx:135-136 | the chain of `or` fallbacks gives one of the candidates, and "" exactly when all are empty |
| BlockKit.RenderMedia | components/blocks/BodyMediaBlock.tsx:142-184 | no media gives the placeholder or nothing; an image renders only with a non-empty source, `absUrl` of the first non-empty candidate, its alt `attributes.name`, else `name`, else "Media image"; a remote video only with an oembed URL, titled by `attributes.name` or the block's fallback; any other type renders nothing |
| BlockKit.ImageRendersIffSource | components/blocks/BodyMediaBlock.tsx:146-149 | an image renders if and only if one of its source candidates is non-empty |
| BlockKit.ReadList | components/blocks/TitleDescriptionCardsTextBlock.tsx:88-94 | an array is kept as it is, a single object becomes a one-element list, anything else gives [] |
| BlockKit.TextOr | components/blocks/FaqsBlock.tsx:79-84 | `processed` when present, else `value` when present, else the default |
| BodyMedia.FetchBlocks | components/blocks/BodyMediaBlock.tsx:80-125 | a failure gives []; no path gives every row; a path gives the tolerant filter with its fallback to every row |
| BodyMedia.SectionOf | components/blocks/BodyMediaBlock.tsx:203-269 | the title is `processed`, else `value`, else "", and the body is the block's body; missing media renders nothing (there is no placeholder); the buttons are the valid links of an array value, in order |
| BodyMedia.Render | components/blocks/BodyMediaBlock.tsx:188-277 | the path defaults to "/"; nothing renders exactly when the fetch failed or returned no rows; otherwise one section per selected block, in order |
| BodyMedia.Sections | components/blocks/BodyMediaBlock.tsx:203-272 | one section per block, in the blocks' order |
| BodyMedia.ExtraRowsKeepMatches | components/blocks/BodyMediaBlock.tsx:106-115 | adding rows that do not match a path changes nothing once some row matches |
| CardWithLabel.FetchBlock | components/blocks/CardWithLabelBlock.tsx:59-72 | nothing exactly when the fetch failed or returned no rows; without a path the newest row; with a path the first row whose normalised path matches, else the newest row |
| CardWithLabel.CardOf | components/blocks/CardWithLabelBlock.tsx:112-152 | eyebrow, title and description are the card's own; the link target comes from `toLink`; the link shows if and only if the URI is present and non-empty; its text is `link_title` or "Learn more" |
| CardWithLabel.Render | components/blocks/CardWithLabelBlock.tsx:77-98 | something renders if and only if a block was picked and its cards are a non-empty array; then the title is the block's formatted title and there is one card per entry, in order |
| Faqs.FetchBlock | components/blocks/FaqsBlock.tsx:55-71 | nothing exactly when the fetch failed or returned no rows; without a path the newest row; with a path the first row whose normalised path matches, else the newest row |
| Faqs.SectionTitle | components/blocks/FaqsBlock.tsx:79-84 | the title is `processed` when present, else `value`, and "FAQs" when the field has neither |
| Faqs.Ctas | components/blocks/FaqsBlock.tsx:92-95 | the CTAs are the first two valid links (a prefix of the valid links), or all of them when there are fewer |
| Faqs.LaterLinksIgnored | components/blocks/FaqsBlock.tsx:92-95 | once two valid links have been seen, later entries never change the CTAs |
| Faqs.InvalidLinksSkipped | components/blocks/FaqsBlock.tsx:92-95 | invalid entries before the CTAs never take a CTA's place, since filtering happens before the slice |
| Faqs.ViewOf | components/blocks/FaqsBlock.tsx:79-95 | the items render only from an array value; CTAs and title as above |
| Faqs.Render | components/blocks/FaqsBlock.tsx:74-77 | nothing renders exactly when no block was picked; otherwise the picked block's view |
| GreyListOfCards.FetchBlocks | components/blocks/GreyListOfCardsBlock.tsx:52-72 | a failure gives []; no path gives every row; a path gives the tolerant filter; the result is empty exactly when the fetch failed or returned no rows |
| GreyListOfCards.Coalesce | components/blocks/GreyListOfCardsBlock.tsx:122-126 | `a ?? b ?? … ?? d` gives the first present value, else the default |
| GreyListOfCards.CoalesceFrom | components/blocks/GreyListOfCardsBlock.tsx:122-126 | a coalesced value is the default or one of the present values |
| GreyListOfCards.CardOf | components/blocks/GreyListOfCardsBlock.tsx:122-126 | label falls back from `label` to `Label`, title from `title` to `Title`, text from `text` to `description` to `Description`, each finally to "" |
| GreyListOfCards.EmptyTextHidesDescription | components/blocks/GreyListOfCardsBlock.tsx:124-126 | an empty `text` is kept, since `??` only skips null and undefined, so it hides `description` |
| GreyListOfCards.SectionOf | components/blocks/GreyListOfCardsBlock.tsx:84-98 | cards render only from an array, one per entry in order; a missing field reads as no cards |
| GreyListOfCards.Render | components/blocks/GreyListOfCardsBlock.tsx:75-83 | the path defaults to "/"; nothing renders exactly when the fetch failed or returned no rows; otherwise one section per selected block, in order |
| GreyListOfCards.Sections | components/blocks/GreyListOfCardsBlock.tsx:83 | one section per block, in the blocks' order |
| HeroStack.FetchBlock | components/blocks/HeroStackBlock.tsx:71-94 | nothing exactly when the fetch failed or returned no rows; without a path the first row; with a path the first row whose normalised path matches, else the newest row |
| HeroStack.HeroOf | components/blocks/HeroStackBlock.tsx:126-137 | pill, body and second text are the block's own and the title its formatted title; primary and secondary are the links at positions 0 and 1, absent when invalid; the rest are the valid links from position 2 on; the CTA row shows if and only if any of them exists |
| HeroStack.CtasAreParsedLinks | components/blocks/HeroStackBlock.tsx:131-137 | primary, secondary and the rest together are exactly the valid links of the field in order: none is lost or repeated |
| HeroStack.ParsedLinksCons | components/blocks/HeroStackBlock.tsx:133 | the valid links of a field are those of its first entry, then those of the rest |
| HeroStack.CtaRowIffValidLink | components/blocks/HeroStackBlock.tsx:177 | the CTA row shows if and only if the field holds at least one valid link |
| HeroStack.Render | components/blocks/HeroStackBlock.tsx:99-102 | the path defaults to "/"; nothing renders exactly when the fetch failed or returned no rows |
| LatestArticles.ImageOf | components/blocks/LatestArticlesBlock.tsx:61-64 | the direct image reference wins; there is none only when none of the three places has one |
| LatestArticles.MediaOf | components/blocks/LatestArticlesBlock.tsx:100 | the media is the direct `field_media` when present, else the one under relationships |
| LatestArticles.MediaUrl | components/blocks/LatestArticlesBlock.tsx:59-71 | `getMediaUrl` gives a value if and only if the media is present and is an image; the value is `absUrl` of the first non-empty source candidate |
| LatestArticles.RawSource | components/blocks/LatestArticlesBlock.tsx:65-69 | a non-empty source is one of the candidates `uri.url`, `uri.value`, `url` and the attribute copy's `url` |
| LatestArticles.SourcelessImageHidden | components/blocks/LatestArticlesBlock.tsx:59-71 | an image whose references name no source resolves to "", so no image is drawn |
| LatestArticles.TrimText | components/blocks/LatestArticlesBlock.tsx:24-28 | a text within the limit is the stripped text itself; a longer one is its first `limit` characters, trimmed, followed by "…", so a prefix of at most `limit` characters plus the ellipsis |
| LatestArticles.TrimmedPrefix | components/blocks/LatestArticlesBlock.tsx:27 | trimming a prefix of a trimmed text gives a prefix of that text |
| LatestArticles.CardOf | components/blocks/LatestArticlesBlock.tsx:97-104 | the title falls back to "(Untitled)" and the link to "/node/" + id; the image is `getMediaUrl` of the article's media (direct, else under relationships), drawn if and only if that URL is non-empty; the excerpt is `trimText(body, 150)` for a non-empty body and "" otherwise |
| LatestArticles.FetchArticles | components/blocks/LatestArticlesBlock.tsx:47-56 | a failed request gives no articles; otherwise the answer |
| LatestArticles.Render | components/blocks/LatestArticlesBlock.tsx:75-104 | nothing renders exactly when there are no articles; otherwise one card per article, in order |
| LinkCardWith.FetchBlocks | components/blocks/TitleDescriptionLinkCardWithBlock.tsx:118-138 | a failure gives []; no path gives every row; a path gives the tolerant filter; the result is empty exactly when the fetch failed or returned no rows |
| LinkCardWith.CtasFrom | components/blocks/TitleDescriptionLinkCardWithBlock.tsx:272-278 | each button comes from a valid entry at its original index, in increasing index order, and is solid if and only if that index is 1 |
| LinkCardWith.Ctas | components/blocks/TitleDescriptionLinkCardWithBlock.tsx:272-281 | at most one button is solid |
| LinkCardWith.LinksOf | components/blocks/TitleDescriptionLinkCardWithBlock.tsx:272-291 | one link per button |
| LinkCardWith.CtasFromCoverValid | components/blocks/TitleDescriptionLinkCardWithBlock.tsx:272-275 | every valid entry gets a button, exactly once and in order |
| LinkCardWith.CtaLinksAreParsed | components/blocks/TitleDescriptionLinkCardWithBlock.tsx:272-275 | the buttons show exactly the links `linkFromDrupal` accepts, in order |
| LinkCardWith.SecondEntrySolid | components/blocks/TitleDescriptionLinkCardWithBlock.tsx:278 | a valid entry at index 1 gives a solid button, even when entry 0 is invalid |
| LinkCardWith.SectionOf | components/blocks/TitleDescriptionLinkCardWithBlock.tsx:222-270 | title, body and the description under the image are the block's; missing media renders the placeholder; the CTA row is drawn only for an array of links and shows its valid links |
| LinkCardWith.Render | components/blocks/TitleDescriptionLinkCardWithBlock.tsx:213-222 | the path defaults to "/"; nothing renders exactly when the fetch failed or returned no rows; otherwise one section per selected block, in order |
| LinkCardWith.Sections | components/blocks/TitleDescriptionLinkCardWithBlock.tsx:222 | one section per block, in the blocks' order |
| ListCards.FetchBlocks | components/blocks/ListCardsBlock.tsx:49-73 | no path filter is sent; a failure propagates; otherwise exactly the rows whose `field_path` is the path |
| ListCards.CardOf | components/blocks/ListCardsBlock.tsx:117-118 | the badge is the title; the description is the trimmed description, so no longer than the input |
| ListCards.LinkItems | components/blocks/ListCardsBlock.tsx:96-101 | a missing field gives no links; a single entry is wrapped and kept when valid; a list keeps its valid links in order |
| ListCards.SectionOf | components/blocks/ListCardsBlock.tsx:84-118 | the title is the block's formatted title; cards render only from an array, one per entry in order; the links are `LinkItems` of the field |
| ListCards.Render | components/blocks/ListCardsBlock.tsx:75-83 | the path defaults to "/"; a failure propagates; nothing renders exactly when no row has the path; otherwise one section per selected block, in order |
| ListCards.MoreLinksAppend | components/blocks/ListCardsBlock.tsx:99-101 | appending entries appends their valid links after the existing ones |
| ListCardsDescription.FetchBlock | components/blocks/ListCardsWithDescriptionBlock.tsx:51-75 | nothing exactly when the fetch failed or returned no rows; without a path the first row; with a path the first matching row (`find`), else the first row |
| ListCardsDescription.CardOf | components/blocks/ListCardsWithDescriptionBlock.tsx:125-126 | badge and description are the trimmed title and description, so unchanged when already trimmed |
| ListCardsDescription.ViewOf | components/blocks/ListCardsWithDescriptionBlock.tsx:95-126 | title and body are the block's; cards render only when the field is an array, one per entry in order |
| ListCardsDescription.Render | components/blocks/ListCardsWithDescriptionBlock.tsx:78-81 | the path defaults to "/"; nothing renders exactly when the fetch failed or returned no rows |
| ListCardsDescription.CardsStable | components/blocks/ListCardsWithDescriptionBlock.tsx:125-126 | rendering already-trimmed cards again gives the same cards |
| RouteMedia.FetchRouteMediaBlocks | components/blocks/RouteMediaBlock.tsx:23-43 | no path filter is sent; a failure propagates; otherwise exactly the rows whose `field_path` is the path |
| RouteMedia.Render | components/blocks/RouteMediaBlock.tsx:127-135 | a failure propagates; something renders only when the first selected block has media, and then it is that block's media with "Embedded video" as the default title and no placeholder; otherwise nothing |
| RouteMedia.ExactFilterIdempotent | components/blocks/RouteMediaBlock.tsx:39-42 | filtering twice by the same path equals filtering once |
| RouteMedia.OnlyExactRowsMatter | components/blocks/RouteMediaBlock.tsx:39-42 | rows with another path never influence what renders |
| StackOverviewCards.FetchBlock | components/blocks/StackOverviewCardsBlock.tsx:48-72 | nothing exactly when the fetch failed or returned no rows; without a path the newest row; with a path the first row whose normalised path matches, else the newest row |
| StackOverviewCards.CardOf | components/blocks/StackOverviewCardsBlock.tsx:117-146 | title and description are the trimmed fields; the card links as `normalizeLink` says, and is a link if and only if the URI is present and not blank |
| StackOverviewCards.ViewOf | components/blocks/StackOverviewCardsBlock.tsx:87-117 | the title is the block's and the hint its header hint, shown if and only if it is non-empty; cards render only from an array, one per entry in order |
| StackOverviewCards.Render | components/blocks/StackOverviewCardsBlock.tsx:75-78 | the path is passed through unset when absent; nothing renders exactly when the fetch failed or returned no rows |
| StackOverviewCards.TrimmedCardLinks | components/blocks/StackOverviewCardsBlock.tsx:120-121 | a trimmed, non-empty URI makes the card a link to it with "internal:" stripped |
| TitleCardsWithBullets.FetchBlock | components/blocks/TitleCardsWithBulletsBlock.tsx:53-74 | nothing exactly when the fetch failed or returned no rows; without a path the newest row; with a path the first row whose normalised path matches, else the newest row |
| TitleCardsWithBullets.CardItems | components/blocks/TitleCardsWithBulletsBlock.tsx:117-121 | every card has a non-blank title or description |
| TitleCardsWithBullets.CardItemsExact | components/blocks/TitleCardsWithBulletsBlock.tsx:117-121 | an item is a card if and only if its title or description is not blank |
| TitleCardsWithBullets.CardItemsAppend | components/blocks/TitleCardsWithBulletsBlock.tsx:117-121 | the cards keep the items' order |
| TitleCardsWithBullets.SplitBullets | components/blocks/TitleCardsWithBulletsBlock.tsx:87-93 | every bullet is non-empty and trimmed, and an empty text gives none |
| TitleCardsWithBullets.SplitBulletsIsTrimmedLines | components/blocks/TitleCardsWithBulletsBlock.tsx:87-93 | the empty-text guard changes nothing: `splitBullets` is the trimmed non-blank lines of `split(/\r?\n/)` |
| TitleCardsWithBullets.BulletLines | components/blocks/TitleCardsWithBulletsBlock.tsx:123-126 | every bullet line is non-empty and trimmed |
| TitleCardsWithBullets.BulletLinesAppend | components/blocks/TitleCardsWithBulletsBlock.tsx:123-126 | the bullet lines follow the items' order |
| TitleCardsWithBullets.BulletsOfJoin | components/blocks/TitleCardsWithBulletsBlock.tsx:123-126 | an item whose bullets are clean lines joined by line feeds contributes exactly those lines |
| TitleCardsWithBullets.CardBulletsListed | components/blocks/TitleCardsWithBulletsBlock.tsx:112-126 | an item with text is a card and its bullets are still listed, at its position; the code does not do what the comment at line 114 says |
| TitleCardsWithBullets.CardOf | components/blocks/TitleCardsWithBulletsBlock.tsx:149-153 | title and description are the trimmed fields; the card is a link if and only if the link URI is present and not blank |
| TitleCardsWithBullets.ViewOf | components/blocks/TitleCardsWithBulletsBlock.tsx:107-126 | the title is the block's and the hint its header hint, shown if and only if it is non-empty; bullets come from every item; one card per item with text, in order |
| TitleCardsWithBullets.Render | components/blocks/TitleCardsWithBulletsBlock.tsx:95-98 | the path is passed through unset when absent; nothing renders exactly when the fetch failed or returned no rows |
| TitleDescriptionCards.FetchBlocks | components/blocks/TitleDescriptionCardsBlock.tsx:49-70 | a failure gives []; no path gives every row; a path gives the tolerant filter; the result is empty exactly when the fetch failed or returned no rows |
| TitleDescriptionCards.SectionOf | components/blocks/TitleDescriptionCardsBlock.tsx:79-120 | cards render only from an array value, as given; the title is `processed`, else `value`, else "" |
| TitleDescriptionCards.Render | components/blocks/TitleDescriptionCardsBlock.tsx:72-79 | the path defaults to "/"; nothing renders exactly when the fetch failed or returned no rows; otherwise one section per selected block, in order |
| TitleDescriptionCards.Sections | components/blocks/TitleDescriptionCardsBlock.tsx:79 | one section per block, in the blocks' order |
| TitleDescriptionCards.MatchingRowsShown | components/blocks/TitleDescriptionCardsBlock.tsx:58-65 | once one row matches the path, the blocks shown are exactly the matching rows |
| TitleDescriptionCardsColumns.FetchBlocks | components/blocks/TitleDescriptionCardsColumnsBlock.tsx:49-70 | a failure gives []; no path gives every row; a path gives the tolerant filter; the result is empty exactly when the fetch failed or returned no rows |
| TitleDescriptionCardsColumns.SectionOf | components/blocks/TitleDescriptionCardsColumnsBlock.tsx:79-123 | cards render only from an array value; the title is `processed`, else `value`, else "" |
| TitleDescriptionCardsColumns.Render | components/blocks/TitleDescriptionCardsColumnsBlock.tsx:72-79 | the path defaults to "/"; nothing renders exactly when the fetch failed or returned no rows; otherwise one section per selected block, in order |
| TitleDescriptionCardsColumns.Sections | components/blocks/TitleDescriptionCardsColumnsBlock.tsx:79 | one section per block, in the blocks' order |
| TitleDescriptionCardsColumns.NoMatchShowsEveryBlock | components/blocks/TitleDescriptionCardsColumnsBlock.tsx:65 | when no row's path matches, every fetched block gets a section |
| TitleDescriptionCardsText.FetchBlock | components/blocks/TitleDescriptionCardsTextBlock.tsx:64-85 | nothing exactly when the fetch failed or returned no rows; without a path the newest row; with a path the first row whose normalised path matches, else the newest row |
| TitleDescriptionCardsText.Intro | components/blocks/TitleDescriptionCardsTextBlock.tsx:124-163 | the intro is the summary when non-empty, else the processed body, and is empty only when both are |
| TitleDescriptionCardsText.PrimaryCta | components/blocks/TitleDescriptionCardsTextBlock.tsx:143-145 | the sidebar CTA exists if and only if `links[0]` has a normalised href; its text is the trimmed title, or "Learn more →" when that is blank |
| TitleDescriptionCardsText.OnlyFirstLinkMatters | components/blocks/TitleDescriptionCardsTextBlock.tsx:143 | link entries after the first never change the sidebar CTA |
| TitleDescriptionCardsText.CardOf | components/blocks/TitleDescriptionCardsTextBlock.tsx:170-175 | eyebrow and title are the trimmed fields; the description is kept as given; the link as `normalizeLink` says, with label defaulting to "Learn more" |
| TitleDescriptionCardsText.ViewOf | components/blocks/TitleDescriptionCardsTextBlock.tsx:139-145 | title, second body and sidebar heading are the ones given; the intro follows `Intro`; cards and the sidebar CTA come from `readCards` and `readLinks`, one card per entry, in order |
| TitleDescriptionCardsText.Render | components/blocks/TitleDescriptionCardsTextBlock.tsx:104-113 | the sidebar heading is the one given, else "Representative Missions"; nothing renders exactly when the fetch failed or returned no rows; otherwise the view of the picked block |
| TitleDescriptionLinkCard.FetchBlocks | components/blocks/TitleDescriptionLinkCardBlock.tsx:52-71 | a failure gives []; no path gives every row; a path gives the tolerant filter; the result is empty exactly when the fetch failed or returned no rows |
| TitleDescriptionLinkCard.Buttons | components/blocks/TitleDescriptionLinkCardBlock.tsx:109-137 | one button per valid link, in order, a single value counting as a one-entry list; exactly the first is styled primary |
| TitleDescriptionLinkCard.InvalidFirstPromotesNext | components/blocks/TitleDescriptionLinkCardBlock.tsx:109-134 | when the first entry is not a valid link, the next valid one becomes the primary button |
| TitleDescriptionLinkCard.SecondCardOf | components/blocks/TitleDescriptionLinkCardBlock.tsx:156-168 | the "Details" placeholder is drawn if and only if the second text is empty; otherwise that text is drawn |
| TitleDescriptionLinkCard.SectionOf | components/blocks/TitleDescriptionLinkCardBlock.tsx:86-111 | the title is `processed`, else `value`, else "", and the body is the block's; buttons and the right-hand card follow the rules above |
| TitleDescriptionLinkCard.Render | components/blocks/TitleDescriptionLinkCardBlock.tsx:76-85 | the path defaults to "/"; nothing renders exactly when the fetch failed or returned no rows; otherwise one section per selected block, in order |
| TitleDescriptionLinkCard.Sections | components/blocks/TitleDescriptionLinkCardBlock.tsx:85 | one section per block, in the blocks' order |
| TitleDescriptionLinkCardsCol.FetchBlocks | components/blocks/TitleDescriptionLinkCardsColBlock.tsx:65-85 | a failure gives []; no path gives every row; a path gives the tolerant filter; the result is empty exactly when the fetch failed or returned no rows |
| TitleDescriptionLinkCardsCol.SectionOf | components/blocks/TitleDescriptionLinkCardsColBlock.tsx:108-116 | title and body are the block's; the primary and secondary CTAs are entries 0 and 1 parsed, each possibly invalid; the CTA row shows if and only if one is valid; cards render only from an array |
| TitleDescriptionLinkCardsCol.LaterLinksNeverRendered | components/blocks/TitleDescriptionLinkCardsColBlock.tsx:116 | link entries after the second never change a section |
| TitleDescriptionLinkCardsCol.CtaRowIffValidLeadingLink | components/blocks/TitleDescriptionLinkCardsColBlock.tsx:170 | the CTA row shows if and only if one of the first two entries is a valid link |
| TitleDescriptionLinkCardsCol.Render | components/blocks/TitleDescriptionLinkCardsColBlock.tsx:88-95 | the path defaults to "/"; nothing renders exactly when the fetch failed or returned no rows; otherwise one section per selected block, in order |
| TitleDescriptionLinkCardsCol.Sections | components/blocks/TitleDescriptionLinkCardsColBlock.tsx:95 | one section per block, in the blocks' order |
| TitleTextCard.FetchBlocks | components/blocks/TitleTextCardBlock.tsx:53-61 | a failure propagates; otherwise exactly the rows whose path equals the requested one |
| TitleTextCard.Slot | components/blocks/TitleTextCardBlock.tsx:101-103 | a slot is filled only from an array entry at that position holding a valid link, and is that entry parsed |
| TitleTextCard.CardOf | components/blocks/TitleTextCardBlock.tsx:163-168 | the title is kept; the lines are the description split on CRLF or LF, trimmed, blank ones dropped, so every line is non-empty and trimmed |
| TitleTextCard.CardLinesRoundTrip | components/blocks/TitleTextCardBlock.tsx:165-168 | clean lines joined by line feeds come back as the card's lines, unchanged and in order |
| TitleTextCard.SectionOf | components/blocks/TitleTextCardBlock.tsx:101-162 | title and body are the block's; left slots are entries 0 and 1 of `field_links`, the right CTA entry 0 of `field_card_links`; the left row shows if and only if a left slot is filled; one card per array entry |
| TitleTextCard.Render | components/blocks/TitleTextCardBlock.tsx:64-73 | the path defaults to "/"; a fetch failure propagates; nothing renders if and only if no row matches; otherwise one section per row, in order |
| TitleTextCard.LaterLinksIgnored | components/blocks/TitleTextCardBlock.tsx:101-102 | a link entry beyond the second never reaches the left column |
| TitleTextText.FetchBlock | components/blocks/TitleTextTextBlock.tsx:39-62 | nothing exactly when the fetch failed or returned no rows; with a path the first tolerant match, else the newest row; without one the newest row |
| TitleTextText.Render | components/blocks/TitleTextTextBlock.tsx:67-77 | the path is passed through unset when absent; nothing renders exactly when the fetch failed or returned no rows; otherwise the title (`processed`, else `value`, else ""), body and second body of the block `fetchBlock` picks |
| TitleTextText.PicksFirstOfFilter | components/blocks/TitleTextTextBlock.tsx:48-58 | the single-block fetch picks the first block the tolerant list filter keeps |
| NewsPage.PageOf | app/news/page.tsx:173 | the page number is at least 1, defaults to 1, and is the parameter whenever that is at least 1 |
| NewsPage.PerPageOf | app/news/page.tsx:174 | the page size lies between 6 and 24, defaults to 9, keeps an in-range parameter and clamps one outside to the nearer bound |
| NewsPage.Offset | app/news/page.tsx:146 | the number of skipped articles is never negative and is 0 on the first page |
| NewsPage.PagesTile | app/news/page.tsx:145-146 | consecutive pages are adjacent windows: each starts where the previous one ends |
| NewsPage.BuildFilters | app/news/page.tsx:135-140 | the published-status filter is always set; the three exclusion entries (`id`, `<>`, the identifier) are set exactly when a non-empty identifier is given, and nothing else is |
| NewsPage.PageAbsUrl | app/news/page.tsx:47-53 | no URL for an empty one; otherwise the shared absolute-URL rule, which is never empty |
| NewsPage.ArticleUrl | app/news/page.tsx:67-69 | a present alias is the link even when empty; otherwise "/blog/" followed by the id |
| NewsPage.PickMedia | app/news/page.tsx:83-87 | the first of a list or the single value; nothing exactly when there is no media |
| NewsPage.MediaUrl | app/news/page.tsx:89-94 | no media gives no URL, and a URL given is never empty |
| NewsPage.ImageFileShadowsThumbnail | app/news/page.tsx:91-92 | a present image file wins over the thumbnail even when it names no source, so no URL results |
| NewsPage.ImageSrc | app/news/page.tsx:255 | the image source is never empty; it is the media's URL when the media yields one and the placeholder otherwise |
| NewsPage.FirstTag | app/news/page.tsx:100-102 | a tag label exists if and only if the first tag has a non-empty name, and is that name |
| NewsPage.ExcerptSource | app/news/page.tsx:72-77 | the excerpt text is trimmed; it is the trimmed summary when that is not blank, else the body with tags and runs of white space collapsed |
| NewsPage.Excerpt | app/news/page.tsx:76-80 | a text within the limit is kept; a longer one is its first `limit` characters, right-trimmed, followed by an ellipsis, so a prefix of at most the limit plus "…"; the excerpt is empty exactly when its text is |
| NewsPage.CardOf | app/news/page.tsx:269-300 | a card carries the article's title and follows the rules above for its link, image, tag and excerpt |
| NewsPage.PageHrefShape | app/news/page.tsx:312-323 | a page link is the fixed prefix, the page digits, '&' and the size part |
| NewsPage.PageHrefInjective | app/news/page.tsx:312-323 | different pages or page sizes get different links |
| NewsPage.PagerOf | app/news/page.tsx:311-323 | "Newer" is disabled and "#" exactly on the first page, otherwise it links to the previous page; "Older" links to the next page; both keep the page size |
| NewsPage.OlderThenNewer | app/news/page.tsx:312-323 | following "Older" and then "Newer" comes back to the same page with the same size, and the two pager links of a page differ |
| NewsPage.Render | app/news/page.tsx:172-181 | the page is not found exactly when there is neither a featured article nor any listed one; otherwise the listed cards use a 160-character excerpt, the featured card one of 220 and is absent without a featured article, and the pager is built from the page and the clamped page size |
| NavClient.Toggled | components/navigation/NavClient.tsx:42-43 | toggling adds the key to the recorded submenus and keeps every other one |
| NavClient.ToggleFlipsOne | components/navigation/NavClient.tsx:42-43 | toggling flips the one submenu, an absent key counting as closed, and leaves every other submenu as it was |
| NavClient.ToggleTwice | components/navigation/NavClient.tsx:42-43 | toggling the same submenu twice restores what every submenu shows |
| NavClient.SharedKeyTogglesBoth | components/navigation/NavClient.tsx:394 | the key is url and title run together with no separator, so two items that split the same text differently share one submenu state |
| NavClient.NavState.constructor | components/navigation/NavClient.tsx:34-35 | on mount the drawer is closed and no submenu is open |
| NavClient.NavState.Navigate | components/navigation/NavClient.tsx:37-40 | a new path closes the drawer and every submenu; the same path changes nothing |
| NavClient.NavState.ToggleMobile | components/navigation/NavClient.tsx:73 | the hamburger button flips the drawer and nothing else |
| NavClient.NavState.CloseMobile | components/navigation/NavClient.tsx:88 | the backdrop shuts the drawer and nothing else; the close button at line 111 does the same |
| NavClient.NavState.ToggleSub | components/navigation/NavClient.tsx:42-43 | the one submenu flips and every other submenu, the path and the drawer stay as they were |
| NavClient.Href | components/navigation/NavClient.tsx:171 | a link target is never empty and is the url whenever that is not empty |
| NavClient.LinkOf | components/navigation/NavClient.tsx:171 | a desktop link keeps the item's title and never has an empty target |
| NavClient.ChildOf | components/navigation/NavClient.tsx:202-238 | a flyout entry has its own link and one link per grandchild, in order |
| NavClient.TopOf | components/navigation/NavClient.tsx:163-202 | a top entry links to the item's link, is active if and only if its url is the path, has a flyout if and only if it has children, and lists them in order |
| NavClient.DesktopMenu | components/navigation/NavClient.tsx:142-160 | one desktop entry per primary item, in order |
| NavClient.OneActiveAtMost | components/navigation/NavClient.tsx:166 | two top entries with different urls are never both highlighted |
| NavClient.MobileEntryOf | components/navigation/NavClient.tsx:384-445 | a mobile entry links to the raw url, is active for the current path, has a toggle if and only if it has children, and, only when its toggle is open, shows the mobile entries of its children |
| NavClient.MobileEntries | components/navigation/NavClient.tsx:371-378 | one mobile entry per item |
| NavClient.MobileEntriesAt | components/navigation/NavClient.tsx:371-378 | the mobile entries are the items' entries, in order |
| NavClient.ClosedShowsTopLevel | components/navigation/NavClient.tsx:433 | with every submenu closed, as after a navigation, exactly the top-level items are drawn |
| NavClient.IconFor | components/navigation/NavClient.tsx:344-350 | the icon is chosen by a case-insensitive search of the title, "about" before "contact" before "press", each case stated both ways, and none otherwise |
| NavClient.IconIgnoresCase | components/navigation/NavClient.tsx:345 | the icon does not depend on letter case |
| NavClient.StyleIndex | components/navigation/NavClient.tsx:293 | one of three styles: the item's position among the first three, the first style afterwards |
| NavClient.SecondaryMenu | components/navigation/NavClient.tsx:265-303 | one button per secondary item, in order, with its link, icon, style and a delay of 100 ms per position |
| NavClient.HeaderOf | components/navigation/NavClient.tsx:45-137 | the separator and the secondary buttons appear if and only if there are secondary items, and the buttons are the secondary menu of those items; the drawer appears if and only if it is open, with the mobile entries and the quick links when there are secondary items |
| ContactRoute.FieldOr | app/api/contact/route.ts:41-51 | a form field stands for itself when it is a non-empty string and is replaced by the default otherwise |
| ContactRoute.EnvOr | app/api/contact/route.ts:35-37 | an environment variable stands for itself when set and non-empty and is replaced by the default otherwise |
| ContactRoute.CheckReply | app/api/contact/route.ts:20-27 | the token passes if and only if the answer is successful, names no other action and has no score below 0.5; the reason is "recaptcha_failed" for an unsuccessful answer, else "recaptcha_action_mismatch" for another action, else "recaptcha_low_score" for a low score |
| ContactRoute.ScoreThreshold | app/api/contact/route.ts:21-26 | a score of exactly 0.5 passes; a missing or empty action and a missing score are not checked |
| ContactRoute.Recipients | app/api/contact/route.ts:39 | every recipient is non-empty, trimmed and free of commas |
| ContactRoute.RecipientsOfCsv | app/api/contact/route.ts:39 | a list of clean addresses written as a comma-separated text is read back as that list |
| ContactRoute.Subject | app/api/contact/route.ts:41 | the subject is "[Contact] ", the reason, " — " and the name, with "General" and "Unknown" standing in for a missing reason or name; so it starts with the reason part and ends with the name |
| ContactRoute.BodyLines | app/api/contact/route.ts:43-51 | the text body has six lines: "Name: ", "Email: ", "Company: " and "Reason: " each followed by its field ("" when missing), a blank line, then the trimmed message |
| ContactRoute.BodyTextLines | app/api/contact/route.ts:43-51 | when no field holds a line feed, the text body splits back into exactly its six lines |
| ContactRoute.ComposeMessage | app/api/contact/route.ts:32-89 | a message exists if and only if the recipients variable is set; it goes to the parsed recipients, from the configured address (left out when unset) and the configured name or "ColibriV", with the subject and text body above, a reply-to if and only if the form has an email, tagged "contact-form" |
| ContactRoute.ComposeWebform | app/api/contact/route.ts:116-130 | the webform id defaults to "contact"; name, email, company and reason are the form's fields ("" when absent) and the message is sent untrimmed |
| ContactRoute.FormOf | app/api/contact/route.ts:151-157 | invalid JSON and `null` give no form (the handler throws); an object gives its fields; any other JSON value reads as the empty form |
| ContactRoute.Remote.constructor | app/api/contact/route.ts:91-98 | the outside services start with an empty request log |
| ContactRoute.Remote.Verify | app/api/contact/route.ts:11-19 | a siteverify request is logged with the secret and the token, and the service's answer returned |
| ContactRoute.Remote.Send | app/api/contact/route.ts:91-98 | a Monkeysmail request is logged with its URL, key and message, and the service's answer returned |
| ContactRoute.Remote.Token | app/api/contact/route.ts:119-121 | a CSRF-token request is logged, and the service's answer returned |
| ContactRoute.Remote.Submit | app/api/contact/route.ts:132-139 | a webform submission is logged with its token and payload, and the service's answer returned |
| ContactRoute.PostRunVerified | app/api/contact/route.ts:159-170 | after a passed check the requests are the token check followed by the chosen provider's, and the answer is 200 exactly when delivery succeeded |
| ContactRoute.PostRunUnverified | app/api/contact/route.ts:151-161 | without a passed check at most the token check itself is requested |
| ContactRoute.VerifyRecaptcha | app/api/contact/route.ts:8-28 | exactly one siteverify request is made; the verdict is absent when the request fails and otherwise is the verdict on the answer |
| ContactRoute.SendViaMonkeysmail | app/api/contact/route.ts:32-110 | the requests made and the delivery outcome are those of the Monkeysmail specification, false whenever the call throws or is refused |
| ContactRoute.SendViaDrupalWebform | app/api/contact/route.ts:114-145 | the token request, then the submission only when it succeeded; delivered exactly when both succeeded |
| ContactRoute.Post | app/api/contact/route.ts:149-175 | the handler's answer and the requests it makes are exactly those of the run specification on the form read from the JSON body |
| ContactRoute.HoneypotShortCircuit | app/api/contact/route.ts:154 | a filled honeypot is answered 200 "OK" before any request leaves the server |
| ContactRoute.NonObjectBodies | app/api/contact/route.ts:151-173 | invalid JSON or `null` is answered 500 "server_error" with no request; any other non-object body is answered 400 "missing recaptcha" with no request |
| ContactRoute.MissingTokenRejected | app/api/contact/route.ts:157-158 | a missing token is a 400 "missing recaptcha" with no request made |
| ContactRoute.ProvidersOnlyAfterCheck | app/api/contact/route.ts:159-168 | a provider is contacted only after a passed token check; any run starts with the token check of the form's token, and the later requests all go to one provider |
| ContactRoute.DeliveryOneProvider | app/api/contact/route.ts:161-167 | the requests of a delivery all go to the one provider the destination selects: all to the Drupal webform or all to Monkeysmail |
| ContactRoute.NoSubmitWithoutToken | app/api/contact/route.ts:119-132 | the webform is never submitted unless the CSRF token was fetched successfully |
| ContactRoute.ResponsesAreFew | app/api/contact/route.ts:149-175 | every answer is 200 "OK", 200 `{ ok: true }`, a 400 with one of the token check's reasons, or 500 "server_error"; 200 `{ ok: true }` exactly when the token check passed and the delivery succeeded |
| HeroRotator.NextIndex | components/homepage/HeroRotator.tsx:51 | the next word's index names a word: the following one, or the first after the last |
| HeroRotator.PrevIndex | components/homepage/HeroRotator.tsx:114 | the previous word's index names another word, and stepping forward from it returns to the given one |
| HeroRotator.PrevOfNext | components/homepage/HeroRotator.tsx:51-114 | stepping back undoes stepping forward |
| HeroRotator.Advance | components/homepage/HeroRotator.tsx:50-52 | after any number of ticks the index still names a word |
| HeroRotator.AdvanceMod | components/homepage/HeroRotator.tsx:50-52 | n ticks move the index n places round the ring of five words |
| HeroRotator.FullCycle | components/homepage/HeroRotator.tsx:25-52 | after one tick per word the same word is shown again, and not sooner |
| HeroRotator.RoleOf | components/homepage/HeroRotator.tsx:112-123 | a word enters if and only if it is the active one, and leaves if and only if it is the one just before |
| HeroRotator.OneEntersOneLeaves | components/homepage/HeroRotator.tsx:112-114 | exactly one word enters and exactly one other leaves |
| HeroRotator.VisibilityOf | components/homepage/HeroRotator.tsx:93-152 | the brand is opaque only while shown and takes clicks until hidden; the words and the underline appear only once it is hidden, never together with the brand |
| HeroRotator.ScreenReaderText | components/homepage/HeroRotator.tsx:229 | the live line is "Showing: Colibri." until the brand is hidden, then "Now showing: " with the active word and a full stop |
| HeroRotator.Rotator.constructor | components/homepage/HeroRotator.tsx:30-31 | the rotator starts showing the brand at the first word |
| HeroRotator.Rotator.LingerElapsed | components/homepage/HeroRotator.tsx:34-38 | the linger timer moves a shown brand to its exit and changes nothing otherwise; the phase never goes back |
| HeroRotator.Rotator.ExitElapsed | components/homepage/HeroRotator.tsx:41-45 | the exit timer hides an exiting brand and changes nothing otherwise; the phase never goes back |
| HeroRotator.Rotator.Tick | components/homepage/HeroRotator.tsx:48-54 | a tick moves to the next word only once the brand is hidden; before that the first word stays |
| Footer.FetchMenu | components/layout/Footer.tsx:20-35 | a failed menu gives no items; otherwise the `items` array, else `tree`, else the answer itself when it is an array |
| Footer.ExternalIsNotEmpty | components/layout/Footer.tsx:37-40 | a link taken as external always has a url of its own of at least seven characters |
| Footer.LinkOf | components/layout/Footer.tsx:100-112 | a link keeps the title, targets `url` or "#" when empty, and opens a new tab if and only if its url starts with http or https, in which case it targets that url |
| Footer.EntryOf | components/layout/Footer.tsx:100-133 | an entry has its own link and one link per child, in order, one level deep |
| Footer.ColumnOf | components/layout/Footer.tsx:94-100 | a column keeps its title and has one entry per item, in order |
| Footer.Render | components/layout/Footer.tsx:44-59 | three columns "Company", "Resources" and "More" from the menus "footer", "footer1" and "footer2", in that order, with the year and the fixed bottom links |
| Footer.FailedMenuEmptiesItsColumn | components/layout/Footer.tsx:20-57 | a menu that cannot be loaded leaves its column titled but empty, and the other columns are unaffected |

## Left out

The contact endpoint (app/api/contact/route.ts:149-175) behaves as follows, and the model
does the same:

- There is no required-field check: a request with a token and no name, email or message is
  verified and sent. Missing fields become "" in the webform payload and in the text body.
- Every `CONTACT_DESTINATION` other than "drupal", an unset one included, selects Monkeysmail.
- Every thrown error and every refused delivery becomes 500 "server_error". A failed verdict
  is a 400 whose body is the reason string.

What the core does that the model does not:

- The HTML e-mail body (app/api/contact/route.ts:54-77) is markup built from the same
  fields with no escaping. Only the plain-text body is modelled.
- Network and framework I/O are inputs. This covers the CMS requests, `getMenu`, the
  siteverify, Monkeysmail and webform `fetch` calls, and `req.json()`. The body is read
  through `ContactRoute.FormOf`: invalid JSON or `null` gives `None`, and any other
  non-object value reads as the empty form. The model does not cover request parameters sent to the CMS
  (server-side filters, sort order, sparse field sets, `include`), caching and revalidation
  options, or `console` logging.
- JSON form values are strings. A boolean or numeric `_hp_`, `grecaptchaToken` or field is
  not modelled.
- The reCAPTCHA score is a `real`. A score that is present but not a number is not modelled,
  because the model types it as a number.
- `Number()` parsing of the `page` and `perPage` query strings, and its `NaN` results, are
  not modelled (app/news/page.tsx:173-174). The parameters are optional integers.
- `hasMore` (app/news/page.tsx:161) is a plain predicate. The page never reads it.
- Date formatting with `toLocaleDateString` is not modelled, and neither is the footer's
  clock: the year is a parameter.
- Timer durations, effect scheduling and the interval itself are not modelled (HeroRotator,
  NavClient). The timers are method calls on the state classes. The same holds for CSS,
  animation delays, hover flyouts, the mounted flag of the secondary menu, and every class
  name, style and `dangerouslySetInnerHTML` use.
- Slug.SlugifyTitle: the NFD decomposition is not modelled. Combining marks U+0300 to U+036F
  are removed as in the source, but a precomposed accented letter such as "é" is not split
  first. So it falls into a dash run instead of leaving its base letter.
- Text.Lower: `toLowerCase` is modelled on ASCII letters only. Other letters keep their
  case.
- Text.Trim: white space is the set JavaScript's `trim` and `\s` use, as characters. String
  lengths, and so the excerpt limits, count Dafny characters rather than UTF-16 code units.
- Regular expressions are modelled by character scans that do what each one does:
  - the tag, white-space and `internal:` patterns;
  - `\r?\n`;
  - `^https?:\/\/` with the case ignored.
- `new URL(...)` is not modelled. `BlockKit.ToEmbedUrl` takes what the parse would expose:
  host name, path and `v` parameter, or a failure.
- `Array.prototype.sort` in `normalizeMenu` is modelled as a stable insertion sort by rank,
  which is what a stable sort produces.
- HeaderNav.NormalizeMenu: the result is an object graph in which one node can be reachable
  from several places. It is modelled as maps keyed by menu key (`nodeByKey` and each node's
  `items`). Statements about attachment and order assume distinct keys (`DistinctKeys`),
  the case in which `nodeByKey` identifies each item.
- HeaderNav: pass 3 tests that a URL-less parent's copy exists before attaching under it.
  `EmptyUrlParentsAreNodes` proves it always does, so the test never fails.
- TitleCardsWithBullets: the comment at components/blocks/TitleCardsWithBulletsBlock.tsx:114
  says items that are cards are not listed as bullets, but the code lists them. The model
  follows the code (`CardBulletsListed`).
- Card link labels follow the source's order of operations: a link title made only of white
  space trims to an empty label and is not replaced by "Learn more"
  (`BlankLinkTitleGivesEmptyLabel`).
- NewsPage.MediaUrl: the contract states only that no media gives no URL and that a URL is
  never empty. The preference between image file and thumbnail is the definition, and
  `ImageFileShadowsThumbnail` shows its one surprising case.
- HeroStack.HeroOf, Faqs.Ctas, TitleDescriptionLinkCardsCol.SectionOf: a links field that
  holds a single object instead of an array makes these blocks throw, because they call
  `.slice` or `.map` on it (components/blocks/HeroStackBlock.tsx:133,
  components/blocks/FaqsBlock.tsx:92, components/blocks/TitleDescriptionLinkCardsColBlock.tsx:116).
  The model types these fields as lists, so that crash is not captured. The other blocks
  read their links through `ReadList` or `LinkItems` and are modelled on all three shapes.
- Not part of this model:
  - the static pages under `app/` other than `/news`;
  - the contact form widget `app/contact/ContactForm.tsx` (browser reCAPTCHA, form state);
  - `components/InvestorsAnchorNav.tsx` (DOM, IntersectionObserver, floating-point scroll
    arithmetic).
