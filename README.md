# Sidebar navigation of the Jekyll admin console

This project models how the admin console's sidebar (`src/containers/Sidebar.js`)
builds its route list. The list is made from four inputs: the site configuration,
the collections fetched from the server, the accordion state, and the admin
route prefix. The model then proves what the list contains and in what order.

- `seq_util.dfy` (module `SeqUtil`): the list operations the component uses,
  stated as functions with lemmas about them. These are `_.map`, filtering,
  `_.difference` and `filter(Boolean)`.
- `navigation.dfy` (module `Navigation`) holds:
  - the data model: configuration, collection descriptors, catalog entry
    definitions, links and route-list items;
  - the built-in catalog of four entries (`pages`, `datafiles`, `staticfiles`,
    `configuration`);
  - the hide-list read from `jekyll_admin.hidden_links`, and the visible
    catalog keys;
  - the loop that expands the visible keys into leaves with optional splitters
    before them, written as a method proved against the function `CatalogBlock`;
  - the collections accordion with its entry count and height;
  - the posts and drafts entries and the splitter that closes the top block;
  - the `Sidebar` class, whose one field is `collapsedPanel`. Its constructor and
    click handler change that field, and `Render` computes the logo target and
    the route list.

The admin prefix (`ADMIN_PREFIX`) and the `capitalize` helper come from modules
that are not part of this model, so they are parameters. Translated labels are
kept as their translation keys (`Translated("pages")`). The component's props
(`config`, `collections`) are passed to `Render`; the component state is only
`collapsedPanel`. A missing `config` is `None`. Two mechanisms give the empty
hide-list (`Navigation.HiddenLinks`): a missing `config` or `jekyll_admin`
makes the access throw, and the `catch` substitutes `[]`; a missing
`hidden_links` throws nothing, and the `|| []` at line 114 substitutes `[]`.

`col.sidebar_label || capitalize(col.label)` also falls back to `capitalize`
when `sidebar_label` is the empty string; `Navigation.DisplayText` follows that.

The logo link above the route list is static markup. The model keeps only its
target (`Navigation.LogoHref`), to show that it leads where the `pages` entry does.

## Model

| member | source | states |
|---|---|---|
| SeqUtil.Map | src/containers/Sidebar.js:38 | `_.map` gives one result per input element, in order, each the callback applied to that element |
| SeqUtil.FilterMembership | src/containers/Sidebar.js:52 | an element survives filtering exactly when it is in the input and passes the test |
| SeqUtil.FilterIsSubsequence | src/containers/Sidebar.js:52 | filtering only removes elements; the rest keep their order |
| SeqUtil.FilterCongruent | src/containers/Sidebar.js:119 | two tests that agree on every element of the input filter it alike |
| SeqUtil.DifferenceMembership | src/containers/Sidebar.js:119 | `_.difference(xs, ys)` holds exactly the elements of `xs` that are not in `ys` |
| SeqUtil.DifferenceWithin | src/containers/Sidebar.js:119 | everything in `_.difference(xs, ys)` comes from `xs` |
| Navigation.KeysOf | src/containers/Sidebar.js:110 | `_.keys` gives one key per definition, in definition order |
| SeqUtil.Filter | src/containers/Sidebar.js:52 | the order-preserving filter behind `filter(...)`; never longer than its input (membership and order in the lemmas below) |
| SeqUtil.Difference | src/containers/Sidebar.js:119 | `_.difference(xs, ys)` as a filter of `xs` by non-membership in `ys`; never longer than `xs` |
| SeqUtil.Compact | src/containers/Sidebar.js:52 | `filter(Boolean)` over the mapped collections: the present entries in order, never more than the input |
| Navigation.Lookup | src/containers/Sidebar.js:123 | `defaults[link]` finds a definition of the catalog that carries the key looked up; defined only for keys that are in the catalog |
| Navigation.LookupFindsFirst | src/containers/Sidebar.js:123 | should keys repeat, the lookup finds the first definition carrying the key |
| Navigation.Catalog | src/containers/Sidebar.js:85-108 | the `defaults` literal: four entries with their icons, links, translations and `splitterBefore` flags; no key is defined twice |
| Navigation.CatalogKeysInOrder | src/containers/Sidebar.js:85-110 | the catalog keys are `pages`, `datafiles`, `staticfiles`, `configuration`, in that order |
| Navigation.DefinitionFacts | src/containers/Sidebar.js:85-108 | each catalog entry links to and is translated by its own key; exactly `datafiles` and `configuration` carry `splitterBefore` |
| Navigation.CatalogLabelledByKey | src/containers/Sidebar.js:85-108 | every catalog entry's translation key is its own key |
| Navigation.HiddenLinks | src/containers/Sidebar.js:111-117 | the hide-list is the configured `jekyll_admin.hidden_links` whenever that path exists; a non-empty hide-list can only come from that path, so a missing config, `jekyll_admin` or `hidden_links` yields `[]` |
| Navigation.VisibleKeys | src/containers/Sidebar.js:119 | every visible key has a catalog definition |
| Navigation.VisibleKeysMembership | src/containers/Sidebar.js:119 | a key is visible exactly when it is a catalog key and not in the hide-list |
| Navigation.VisibleKeysInCatalogOrder | src/containers/Sidebar.js:110-119 | the visible keys keep the catalog order, whatever the order of the hide-list |
| Navigation.ForeignHiddenNamesIgnored | src/containers/Sidebar.js:119 | two hide-lists that agree on the catalog keys give the same visible keys, so names outside the catalog have no effect |
| Navigation.VisibleKeysSpelledOut | src/containers/Sidebar.js:110-119 | the visible keys are the four catalog keys in order, each dropped exactly when it is hidden |
| Navigation.NoHideListShowsFullCatalog | src/containers/Sidebar.js:113-119 | without a config, `jekyll_admin` or `hidden_links`, the hide-list is empty and all four catalog keys are visible in order |
| Navigation.CatalogLink | src/containers/Sidebar.js:127-134 | the leaf an entry shows: href `prefix/<link>`, the entry's icon and its translation key |
| Navigation.EntryItems | src/containers/Sidebar.js:123-134 | what one visible key contributes: a splitter when its definition asks for one, then its leaf (counted in `EntryItemsCounts`) |
| Navigation.CatalogBlock | src/containers/Sidebar.js:121-135 | the reference definition of `links`: the items of the visible keys joined in order; the loop is proved equal to it and the lemmas below state its content |
| Navigation.ExpandCatalog | src/containers/Sidebar.js:121-135 | the `_.each` loop that pushes onto `links` produces exactly the catalog block of the visible keys |
| Navigation.CatalogBlockSnoc | src/containers/Sidebar.js:122-135 | one loop step: the block of the first `i + 1` keys is the block of the first `i` followed by key `i`'s optional splitter and its leaf |
| Navigation.CatalogBlockAppend | src/containers/Sidebar.js:121-135 | the block of two key lists joined is the two blocks joined |
| Navigation.CatalogBlockLength | src/containers/Sidebar.js:121-135 | the block has one item per visible key plus one per visible key with `splitterBefore` |
| Navigation.EntryItemsCounts | src/containers/Sidebar.js:124-134 | one entry contributes one splitter exactly when its definition asks for one, and exactly one leaf, its own link |
| Navigation.CatalogBlockSplitters | src/containers/Sidebar.js:124-126 | the block holds exactly as many splitters as there are visible keys with `splitterBefore` |
| Navigation.CatalogBlockLeaves | src/containers/Sidebar.js:127-134 | the block's leaves are, in order, one per visible key, the `i`-th linking to `prefix/<link>` with the `i`-th key's icon and translation |
| Navigation.CatalogLeafAt | src/containers/Sidebar.js:122-135 | the leaf of the `i`-th visible key sits at a computed position, and the item just before it is a splitter exactly when its definition has `splitterBefore` |
| Navigation.CatalogBlockAround | src/containers/Sidebar.js:122-135 | the block is the block of the keys before `i`, then key `i`'s items, then the block of the keys after it |
| Navigation.LeafPositionAfterBlock | src/containers/Sidebar.js:124-129 | key `i`'s leaf comes right after the block of the earlier keys and, when asked for, one splitter |
| Navigation.CatalogBlockEndsWithLeaf | src/containers/Sidebar.js:127-134 | a non-empty block ends with a leaf, never with a splitter |
| Navigation.CatalogBlockItems | src/containers/Sidebar.js:124-134 | every item of the block is a splitter or the leaf of a visible key, labelled by that key's translation |
| Navigation.IsShown | src/containers/Sidebar.js:39 | the test a collection passes: its label is not `posts` and not in the hide-list |
| Navigation.DisplayText | src/containers/Sidebar.js:47 | `sidebar_label` when it is set and not empty, otherwise `capitalize` of the label |
| Navigation.CollectionLink | src/containers/Sidebar.js:42-48 | a collection's entry: href `prefix/collections/<label>`, the `book` icon and its display text |
| Navigation.CollectionEntry | src/containers/Sidebar.js:38-51 | the `_.map` callback: the entry for a collection that passes the test, nothing otherwise |
| Navigation.CollectionItems | src/containers/Sidebar.js:38-52 | `_.map(...).filter(Boolean)` over the collections; never more entries than collections (content in `CollectionItemsAreShown`) |
| Navigation.CollectionItemsAreShown | src/containers/Sidebar.js:38-52 | the mapped and `filter(Boolean)`-ed collection entries are the links of the collections that pass the test, in input order |
| Navigation.ShownCollectionsCharacterized | src/containers/Sidebar.js:39 | a collection gets an entry exactly when it is in the input, is not `posts` and is not hidden; the shown ones keep the input order |
| Navigation.PanelHeight | src/containers/Sidebar.js:65 | the panel height is never below one row (50) |
| Navigation.PanelHeightCollapsedConstant | src/containers/Sidebar.js:65 | collapsed, the height is 50 whatever the number of entries |
| Navigation.PanelHeightExpandedIncreasing | src/containers/Sidebar.js:65 | expanded, the height is `(n + 1) * 50` and strictly increasing in `n` |
| Navigation.CollectionsPanel | src/containers/Sidebar.js:31-80 | a present panel carries the accordion flag, a counter equal to its number of entries (at least one), and the height for that flag and count |
| Navigation.CollectionsPanelPresence | src/containers/Sidebar.js:34-56 | the panel is present exactly when some input collection is neither `posts` nor hidden; an empty list, or one that filters to nothing, gives no panel; a present panel lists exactly the shown collections, each linking to `prefix/collections/<label>` |
| Navigation.PostsLink | src/containers/Sidebar.js:146-156 | the posts entry: href `prefix/collections/posts`, the `book` icon, the `posts` translation |
| Navigation.DraftsLink | src/containers/Sidebar.js:157-164 | the drafts entry: href `prefix/drafts`, the `edit` icon, the `drafts` translation |
| Navigation.PostsVisible | src/containers/Sidebar.js:138 | posts is shown when `posts` is not in the hide-list |
| Navigation.DraftsVisible | src/containers/Sidebar.js:139 | drafts is shown when a config is present and its `show_drafts` is true |
| Navigation.TopBlock | src/containers/Sidebar.js:145-165 | the items before the catalog block: at most four, and a non-empty top block ends with the splitter (order in `TopBlockStructure`) |
| Navigation.Layout | src/containers/Sidebar.js:144-167 | the whole route list: the top block followed by the catalog block of the visible keys (properties in the lemmas below) |
| Navigation.LogoHref | src/containers/Sidebar.js:143 | the logo's target `prefix/pages` |
| Navigation.LogoLeadsToPages | src/containers/Sidebar.js:143 | the logo leads to the same route as the catalog's `pages` entry |
| Navigation.LabelsOutsideCatalog | src/containers/Sidebar.js:85-108 | `posts` and `drafts` are not catalog keys |
| Navigation.TopBlockLeaves | src/containers/Sidebar.js:145-165 | the only leaves before the catalog block are posts, present when `posts` is not hidden, and drafts, present when `show_drafts` is set |
| Navigation.LeafOutsideCatalogBlock | src/containers/Sidebar.js:127-134 | a leaf whose translation key is not a visible key does not occur in the catalog block |
| Navigation.PostsLeafIff | src/containers/Sidebar.js:138-156 | the posts leaf appears in the route list exactly when `posts` is not hidden, whatever the collections are |
| Navigation.DraftsLeafIff | src/containers/Sidebar.js:139-164 | the drafts leaf appears exactly when the config sets `show_drafts` |
| Navigation.HiddenEntryAbsent | src/containers/Sidebar.js:119-135 | a hidden catalog entry's leaf appears nowhere in the route list |
| Navigation.TopBlockStructure | src/containers/Sidebar.js:145-165 | panel, posts and drafts come in that order, each where expected, followed by one splitter; with none of the three, there is no splitter either |
| Navigation.OptionalRowThenSplitter | src/containers/Sidebar.js:145-165 | up to three optional items followed by a splitter, present exactly when one of them is, keep their order and end with the splitter |
| Navigation.CollapsingChangesOnlyThePanel | src/containers/Sidebar.js:58-79 | two accordion states give route lists of the same length that agree after the first item; if the first items differ, both are panels with the two flags and the same entries and counter |
| Navigation.TopBlockCollapse | src/containers/Sidebar.js:58-79 | the same property for the top block alone |
| Navigation.HeadOnlyDiffers | src/containers/Sidebar.js:144-166 | appending the catalog block keeps two lists agreeing after their first item |
| Navigation.LayoutStructure | src/containers/Sidebar.js:144-167 | the route list is the top block followed by the catalog block |
| Navigation.CatalogSplitterCount | src/containers/Sidebar.js:121-135 | the catalog splitters in the route list number the visible entries with `splitterBefore` |
| Navigation.ScenarioHiddenStaticFiles | src/containers/Sidebar.js:82-170 | drafts on, collections `posts` and `team`, `staticfiles` hidden: the panel lists only `team`, then posts, drafts, a splitter, `pages`, a splitter, `datafiles`, a splitter, `configuration` |
| Navigation.ScenarioHiddenStaticFilesTop | src/containers/Sidebar.js:137-165 | the top block of that scenario |
| Navigation.ScenarioHiddenStaticFilesCatalog | src/containers/Sidebar.js:119-135 | the catalog block of that scenario |
| Navigation.VisibleKeysHidingStaticFiles | src/containers/Sidebar.js:119 | hiding `staticfiles` and no other catalog key leaves `pages`, `datafiles`, `configuration` |
| Navigation.CatalogBlockWithoutStaticFiles | src/containers/Sidebar.js:121-135 | the block of those three keys, written out |
| Navigation.ScenarioEmptyConfig | src/containers/Sidebar.js:82-170 | an empty config and no collections give posts, a splitter and the full catalog, with splitters before `datafiles` and `configuration` |
| Navigation.CatalogBlockOfAllKeys | src/containers/Sidebar.js:121-135 | the block of all four catalog keys, written out |
| Navigation.CatalogBlockOfThree | src/containers/Sidebar.js:121-135 | the block of three keys is their entries' items joined in order |
| Navigation.CatalogBlockOfFour | src/containers/Sidebar.js:121-135 | the block of four keys is their entries' items joined in order |
| Navigation.CatalogBlockOfKnownKeys | src/containers/Sidebar.js:85-135 | the items each catalog entry contributes: its leaf with `prefix/<key>`, its icon and its translation, after a splitter for `datafiles` and `configuration` |
| Navigation.CatalogEntryAt | src/containers/Sidebar.js:85-108 | looking up the key of the `i`-th catalog entry finds that entry |
| Navigation.Toggle | src/containers/Sidebar.js:25-29 | the click handler's new state always differs from the old one |
| Navigation.ToggleTwice | src/containers/Sidebar.js:25-29 | two toggles restore the state |
| Navigation.Sidebar.constructor | src/containers/Sidebar.js:15-18 | the accordion starts collapsed |
| Navigation.Sidebar.HandleClick | src/containers/Sidebar.js:25-29 | a click flips `collapsedPanel` and changes nothing else |
| Navigation.Sidebar.Render | src/containers/Sidebar.js:82-170 | `render` yields the logo target `prefix/pages` and the route list for the given config, collections and current accordion state, with the catalog block computed by the loop |
| Navigation.ClickTwiceRestores | src/containers/Sidebar.js:25-29 | two clicks leave the accordion as it was |

## Left out

- JSX markup: `li`/`ul` elements, `Link` components, `activeClassName`, the `classnames` CSS classes and the chevron markup are presentation. Icons appear only as their names (`"book"`, `"cog"`).
- The logo's markup and class name are presentation; only its target is modelled.
- React element keys (`key={i}`, `'splitter' + index`) only serve React's reconciliation.
- The accordion's header text (`SidebarTranslations.collections`) and icon are fixed markup; a `Panel` item carries only its flag, height, counter and entries.
- `SidebarTranslations` lookups are localized data, so labels stay translation keys.
- `ADMIN_PREFIX` and `capitalize` come from modules that are not part of this model; they are the parameters `prefix` and `capitalize`.
- `componentDidMount` and its `fetchCollections()` call (lines 20-23) are asynchronous I/O; the collection list is an input.
- The Redux wiring (`mapStateToProps`, `mapDispatchToProps`, `connect`, lines 179-191) and `propTypes` (lines 173-177) are store plumbing and runtime type hints.
- `setState` is asynchronous and batched in React; `HandleClick` updates the field at once.
- JavaScript truthiness is not modelled: `show_drafts` is an optional boolean and only `true` shows drafts, and `hidden_links` is an optional list of strings (a non-list value, where `includes` would test substrings, is not representable).
- The `try`/`catch` is modelled as an optional traversal; the only failure it can catch here is a missing `config` or `jekyll_admin`.
- `src/containers/Header.js` is not part of this model: it is presentation only.
