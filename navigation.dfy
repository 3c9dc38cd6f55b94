/** The composition logic of the admin console's sidebar: a fixed catalog of
    built-in entries reduced by a hide-list, a collapsible panel of
    collection entries, the posts and drafts entries, and the separators
    between them. Labels are translation keys or plain text; the admin route
    prefix and the `capitalize` helper are parameters. */
module Navigation {
  import opened SeqUtil

  // ---------------------------------------------------------------------
  // Data model

  /** The `jekyll_admin` part of the site configuration. */
  datatype AdminSettings = AdminSettings(hiddenLinks: Option<seq<string>>)

  /** The site configuration, as far as the sidebar reads it. */
  datatype Config = Config(showDrafts: Option<bool>, jekyllAdmin: Option<AdminSettings>)

  /** A collection descriptor as fetched from the server. */
  datatype Collection = Collection(name: string, sidebarLabel: Option<string>)

  /** A built-in catalog entry. */
  datatype NavEntryDef = NavEntryDef(key: string, icon: string, link: string, translation: string, splitterBefore: bool)

  /** What a link shows: a translation key, or literal text. */
  datatype Label = Translated(key: string) | Text(text: string)

  datatype Link = Link(href: string, icon: string, title: Label)

  /** One item of the sidebar's route list. A `Panel` is the collapsible
      collections accordion, with its `maxHeight` and counter. */
  datatype Item =
    | Splitter
    | Leaf(link: Link)
    | Panel(collapsed: bool, maxHeight: nat, counter: nat, entries: seq<Link>)

  /** The height of one sidebar row. */
  const RowHeight: nat := 50

  // ---------------------------------------------------------------------
  // Entry definitions

  /** `_.keys`: the keys of a list of entry definitions, in order. */
  function KeysOf(defs: seq<NavEntryDef>): (ks: seq<string>)
    ensures |ks| == |defs|
    ensures forall i :: 0 <= i < |defs| ==> ks[i] == defs[i].key
    decreases |defs|
  {
    if defs == [] then [] else [defs[0].key] + KeysOf(defs[1..])
  }

  /** Every key of `ks` has a definition in `defs`. */
  predicate Defines(defs: seq<NavEntryDef>, ks: seq<string>)
  {
    forall k :: k in ks ==> k in KeysOf(defs)
  }

  /** The definition stored under `key` (the lookup `defaults[link]`). */
  function Lookup(defs: seq<NavEntryDef>, key: string): (d: NavEntryDef)
    requires key in KeysOf(defs)
    ensures d in defs && d.key == key
    decreases |defs|
  {
    if defs[0].key == key then defs[0] else Lookup(defs[1..], key)
  }

  /** When keys repeat, the lookup finds the first definition with the key. */
  lemma {:induction false} LookupFindsFirst(defs: seq<NavEntryDef>, key: string, i: nat)
    requires i < |defs| && defs[i].key == key
    requires forall j :: 0 <= j < i ==> defs[j].key != key
    ensures key in KeysOf(defs) && Lookup(defs, key) == defs[i]
    decreases i
  {
    if i > 0 {
      LookupFindsFirst(defs[1..], key, i - 1);
      assert defs == [defs[0]] + defs[1..];
    }
  }

  /** `key` is defined and its definition asks for a splitter before it. */
  predicate SplitterBefore(defs: seq<NavEntryDef>, key: string)
  {
    key in KeysOf(defs) && Lookup(defs, key).splitterBefore
  }

  /** The keys of `ks` whose definition asks for a splitter, in order. */
  function WithSplitter(defs: seq<NavEntryDef>, ks: seq<string>): seq<string>
    decreases |ks|
  {
    if ks == [] then []
    else (if SplitterBefore(defs, ks[0]) then [ks[0]] else []) + WithSplitter(defs, ks[1..])
  }

  lemma {:induction false} WithSplitterAppend(defs: seq<NavEntryDef>, a: seq<string>, b: seq<string>)
    ensures WithSplitter(defs, a + b) == WithSplitter(defs, a) + WithSplitter(defs, b)
    decreases |a|
  {
    if a == [] {
      assert a + b == b;
    } else {
      assert (a + b)[0] == a[0] && (a + b)[1..] == a[1..] + b;
      WithSplitterAppend(defs, a[1..], b);
      AppendAssociative(if SplitterBefore(defs, a[0]) then [a[0]] else [], WithSplitter(defs, a[1..]), WithSplitter(defs, b));
    }
  }

  /** Every definition is labelled by the translation of its own key. */
  predicate LabelledByKey(defs: seq<NavEntryDef>)
  {
    forall d :: d in defs ==> d.translation == d.key
  }

  // ---------------------------------------------------------------------
  // The built-in catalog

  /** The built-in catalog, in display order; no key is defined twice. */
  function Catalog(): (c: seq<NavEntryDef>)
    ensures |c| == 4
    ensures forall i, j :: 0 <= i < j < |c| ==> c[i].key != c[j].key
  {
    [ NavEntryDef("pages", "file-text", "pages", "pages", false),
      NavEntryDef("datafiles", "database", "datafiles", "datafiles", true),
      NavEntryDef("staticfiles", "file", "staticfiles", "staticfiles", false),
      NavEntryDef("configuration", "cog", "configuration", "configuration", true) ]
  }

  function CatalogKeys(): seq<string>
  {
    KeysOf(Catalog())
  }

  lemma CatalogKeysInOrder()
    ensures CatalogKeys() == ["pages", "datafiles", "staticfiles", "configuration"]
  {
  }

  predicate InCatalog(key: string)
  {
    key in CatalogKeys()
  }

  function Definition(key: string): NavEntryDef
    requires InCatalog(key)
  {
    Lookup(Catalog(), key)
  }

  /** Each catalog entry links to and is labelled by its own key; exactly
      `datafiles` and `configuration` carry a splitter before them. */
  lemma DefinitionFacts(key: string)
    requires InCatalog(key)
    ensures Definition(key).key == key
    ensures Definition(key).link == key && Definition(key).translation == key
    ensures Definition(key).splitterBefore <==> key == "datafiles" || key == "configuration"
  {
    var d := Definition(key);
    assert d == Catalog()[0] || d == Catalog()[1] || d == Catalog()[2] || d == Catalog()[3];
  }

  lemma CatalogLabelledByKey()
    ensures LabelledByKey(Catalog())
  {
  }

  // ---------------------------------------------------------------------
  // Hide-list and visible catalog keys

  /** `config.jekyll_admin.hidden_links || []`, where any missing step of
      the traversal (including a missing configuration) yields `[]`. */
  function HiddenLinks(config: Option<Config>): (h: seq<string>)
    ensures config.Some? && config.value.jekyllAdmin.Some? && config.value.jekyllAdmin.value.hiddenLinks.Some? ==>
              h == config.value.jekyllAdmin.value.hiddenLinks.value
    ensures h != [] ==> config.Some? && config.value.jekyllAdmin.Some? &&
                        config.value.jekyllAdmin.value.hiddenLinks == Some(h)
  {
    match config
    case None => []
    case Some(c) =>
      match c.jekyllAdmin
      case None => []
      case Some(a) =>
        match a.hiddenLinks
        case None => []
        case Some(h) => h
  }

  /** `_.difference(defaultLinks, hiddenLinks)`. */
  function VisibleKeys(hidden: seq<string>): (r: seq<string>)
    ensures Defines(Catalog(), r)
  {
    DifferenceWithin(CatalogKeys(), hidden);
    Difference(CatalogKeys(), hidden)
  }

  /** A catalog key is visible exactly when it is not hidden. */
  lemma VisibleKeysMembership(hidden: seq<string>, key: string)
    ensures key in VisibleKeys(hidden) <==> InCatalog(key) && key !in hidden
  {
    DifferenceMembership(CatalogKeys(), hidden, key);
  }

  /** The visible keys keep the catalog's order, whatever the hide-list's order. */
  lemma VisibleKeysInCatalogOrder(hidden: seq<string>)
    ensures IsSubsequence(VisibleKeys(hidden), CatalogKeys())
  {
    FilterIsSubsequence(CatalogKeys(), k => k !in hidden);
  }

  /** Hide-list names that are not catalog keys have no effect. */
  lemma ForeignHiddenNamesIgnored(hidden: seq<string>, hidden': seq<string>)
    requires forall k :: InCatalog(k) ==> (k in hidden <==> k in hidden')
    ensures VisibleKeys(hidden) == VisibleKeys(hidden')
  {
    FilterCongruent(CatalogKeys(), k => k !in hidden, k => k !in hidden');
  }

  /** `key` alone, unless it is hidden. */
  function Unless(key: string, hidden: seq<string>): seq<string>
  {
    if key in hidden then [] else [key]
  }

  /** The visible keys, entry by entry: each catalog key in order, dropped
      exactly when it is hidden. */
  lemma VisibleKeysSpelledOut(hidden: seq<string>)
    ensures VisibleKeys(hidden)
            == Unless("pages", hidden) + (Unless("datafiles", hidden)
               + (Unless("staticfiles", hidden) + Unless("configuration", hidden)))
  {
    var ks := CatalogKeys();
    var p := k => k !in hidden;
    var tail3 := Unless("staticfiles", hidden) + Unless("configuration", hidden);
    var tail2 := Unless("datafiles", hidden) + tail3;
    assert ks[0] == "pages" && ks[1..] == ["datafiles", "staticfiles", "configuration"] by {
      CatalogKeysInOrder();
    }
    assert Filter(ks[1..], p) == tail2 by {
      var r := ks[1..];
      assert r[1..] == ["staticfiles", "configuration"] && r[1..][1..] == ["configuration"];
      assert r[1..][1..][1..] == [];
      assert Filter(r[1..][1..], p) == Unless("configuration", hidden);
      assert Filter(r[1..], p) == tail3;
    }
  }

  /** Without a configured hide-list the whole catalog is visible, in order. */
  lemma NoHideListShowsFullCatalog(config: Option<Config>)
    requires config.None? || config.value.jekyllAdmin.None? ||
             config.value.jekyllAdmin.value.hiddenLinks.None?
    ensures HiddenLinks(config) == []
    ensures VisibleKeys(HiddenLinks(config)) == ["pages", "datafiles", "staticfiles", "configuration"]
  {
    CatalogKeysInOrder();
    FilterCongruent(CatalogKeys(), k => k !in HiddenLinks(config), k => true);
  }

  // ---------------------------------------------------------------------
  // Catalog() block

  function CatalogLink(d: NavEntryDef, prefix: string): Link
  {
    Link(prefix + "/" + d.link, d.icon, Translated(d.translation))
  }

  /** What one visible entry contributes: its leaf, preceded by a splitter
      when its definition asks for one. */
  function EntryItems(defs: seq<NavEntryDef>, key: string, prefix: string): seq<Item>
    requires key in KeysOf(defs)
  {
    var d := Lookup(defs, key);
    (if d.splitterBefore then [Splitter] else []) + [Leaf(CatalogLink(d, prefix))]
  }

  /** The catalog block for the visible keys `ks`. */
  function CatalogBlock(defs: seq<NavEntryDef>, ks: seq<string>, prefix: string): seq<Item>
    requires Defines(defs, ks)
    decreases |ks|
  {
    if ks == [] then [] else EntryItems(defs, ks[0], prefix) + CatalogBlock(defs, ks[1..], prefix)
  }

  /** The `_.each` loop over the visible keys that pushes onto `links`. */
  method ExpandCatalog(defaults: seq<NavEntryDef>, visible: seq<string>, prefix: string) returns (links: seq<Item>)
    requires Defines(defaults, visible)
    ensures links == CatalogBlock(defaults, visible, prefix)
  {
    links := [];
    for i := 0 to |visible|
      invariant links == CatalogBlock(defaults, visible[..i], prefix)
    {
      var current := Lookup(defaults, visible[i]);
      if current.splitterBefore {
        links := links + [Splitter];
      }
      links := links + [Leaf(CatalogLink(current, prefix))];
      CatalogBlockSnoc(defaults, visible, i, prefix);
    }
    assert visible[..|visible|] == visible;
  }

  /** One more step of the loop: the block of the first `i + 1` keys extends
      that of the first `i` by the items of key `i`. */
  lemma CatalogBlockSnoc(defs: seq<NavEntryDef>, ks: seq<string>, i: nat, prefix: string)
    requires Defines(defs, ks) && i < |ks|
    ensures CatalogBlock(defs, ks[..i + 1], prefix) == CatalogBlock(defs, ks[..i], prefix) + EntryItems(defs, ks[i], prefix)
  {
    assert ks[..i + 1] == ks[..i] + [ks[i]];
    CatalogBlockAppend(defs, ks[..i], [ks[i]], prefix);
    CatalogBlockSingleton(defs, ks[i], prefix);
  }

  lemma {:induction false} CatalogBlockAppend(defs: seq<NavEntryDef>, a: seq<string>, b: seq<string>, prefix: string)
    requires Defines(defs, a) && Defines(defs, b)
    ensures CatalogBlock(defs, a + b, prefix) == CatalogBlock(defs, a, prefix) + CatalogBlock(defs, b, prefix)
    decreases |a|
  {
    if a == [] {
      assert a + b == b;
    } else {
      assert (a + b)[0] == a[0] && (a + b)[1..] == a[1..] + b;
      CatalogBlockAppend(defs, a[1..], b, prefix);
      AppendAssociative(EntryItems(defs, a[0], prefix), CatalogBlock(defs, a[1..], prefix), CatalogBlock(defs, b, prefix));
    }
  }

  lemma CatalogBlockSingleton(defs: seq<NavEntryDef>, key: string, prefix: string)
    requires key in KeysOf(defs)
    ensures CatalogBlock(defs, [key], prefix) == EntryItems(defs, key, prefix)
  {
    assert [key][1..] == [];
  }

  /** The block has one leaf per visible key and one splitter per visible key
      that asks for one. */
  lemma {:induction false} CatalogBlockLength(defs: seq<NavEntryDef>, ks: seq<string>, prefix: string)
    requires Defines(defs, ks)
    ensures |CatalogBlock(defs, ks, prefix)| == |ks| + |WithSplitter(defs, ks)|
    decreases |ks|
  {
    if ks != [] {
      CatalogBlockLength(defs, ks[1..], prefix);
    }
  }

  /** Number of splitters in a list of items. */
  function CountSplitters(items: seq<Item>): nat
    decreases |items|
  {
    if items == [] then 0 else (if items[0].Splitter? then 1 else 0) + CountSplitters(items[1..])
  }

  /** The links of the leaves of a list of items, in order. */
  function Leaves(items: seq<Item>): seq<Link>
    decreases |items|
  {
    if items == [] then [] else (if items[0].Leaf? then [items[0].link] else []) + Leaves(items[1..])
  }

  lemma {:induction false} CountSplittersAppend(a: seq<Item>, b: seq<Item>)
    ensures CountSplitters(a + b) == CountSplitters(a) + CountSplitters(b)
    decreases |a|
  {
    if a == [] {
      assert a + b == b;
    } else {
      assert (a + b)[0] == a[0] && (a + b)[1..] == a[1..] + b;
      CountSplittersAppend(a[1..], b);
    }
  }

  lemma {:induction false} LeavesAppend(a: seq<Item>, b: seq<Item>)
    ensures Leaves(a + b) == Leaves(a) + Leaves(b)
    decreases |a|
  {
    if a == [] {
      assert a + b == b;
    } else {
      assert (a + b)[0] == a[0] && (a + b)[1..] == a[1..] + b;
      LeavesAppend(a[1..], b);
      AppendAssociative(if a[0].Leaf? then [a[0].link] else [], Leaves(a[1..]), Leaves(b));
    }
  }

  /** One entry's items: one splitter if its definition asks for one, and its leaf. */
  lemma EntryItemsCounts(defs: seq<NavEntryDef>, key: string, prefix: string)
    requires key in KeysOf(defs)
    ensures CountSplitters(EntryItems(defs, key, prefix)) == if SplitterBefore(defs, key) then 1 else 0
    ensures Leaves(EntryItems(defs, key, prefix)) == [CatalogLink(Lookup(defs, key), prefix)]
  {
    var leaf := Leaf(CatalogLink(Lookup(defs, key), prefix));
    if SplitterBefore(defs, key) {
      CountSplittersAppend([Splitter], [leaf]);
      LeavesAppend([Splitter], [leaf]);
    }
    assert [leaf][1..] == [];
  }

  /** The splitters of the block are exactly those of the visible entries
      whose definition has `splitterBefore`. */
  lemma {:induction false} CatalogBlockSplitters(defs: seq<NavEntryDef>, ks: seq<string>, prefix: string)
    requires Defines(defs, ks)
    ensures CountSplitters(CatalogBlock(defs, ks, prefix)) == |WithSplitter(defs, ks)|
    decreases |ks|
  {
    if ks != [] {
      CountSplittersAppend(EntryItems(defs, ks[0], prefix), CatalogBlock(defs, ks[1..], prefix));
      EntryItemsCounts(defs, ks[0], prefix);
      CatalogBlockSplitters(defs, ks[1..], prefix);
    }
  }

  /** The leaves of the block are the visible entries' links, one each, in order. */
  lemma {:induction false} CatalogBlockLeaves(defs: seq<NavEntryDef>, ks: seq<string>, prefix: string)
    requires Defines(defs, ks)
    ensures |Leaves(CatalogBlock(defs, ks, prefix))| == |ks|
    ensures forall i :: 0 <= i < |ks| ==> Leaves(CatalogBlock(defs, ks, prefix))[i] == CatalogLink(Lookup(defs, ks[i]), prefix)
    decreases |ks|
  {
    if ks != [] {
      var rest := CatalogBlock(defs, ks[1..], prefix);
      LeavesAppend(EntryItems(defs, ks[0], prefix), rest);
      EntryItemsCounts(defs, ks[0], prefix);
      CatalogBlockLeaves(defs, ks[1..], prefix);
      assert forall i :: 1 <= i < |ks| ==> ks[i] == ks[1..][i - 1];
    }
  }

  /** Where the leaf of the `i`-th visible key sits in the block. */
  function LeafPosition(defs: seq<NavEntryDef>, ks: seq<string>, i: nat): nat
    requires i < |ks|
  {
    i + |WithSplitter(defs, ks[..i + 1])|
  }

  /** The leaf of the `i`-th visible key is at `LeafPosition(defs, ks, i)`,
      and the item just before it is a splitter exactly when its definition
      has `splitterBefore`. */
  lemma CatalogLeafAt(defs: seq<NavEntryDef>, ks: seq<string>, prefix: string, i: nat)
    requires Defines(defs, ks) && i < |ks|
    ensures LeafPosition(defs, ks, i) < |CatalogBlock(defs, ks, prefix)|
    ensures CatalogBlock(defs, ks, prefix)[LeafPosition(defs, ks, i)] == Leaf(CatalogLink(Lookup(defs, ks[i]), prefix))
    ensures (LeafPosition(defs, ks, i) > 0 && CatalogBlock(defs, ks, prefix)[LeafPosition(defs, ks, i) - 1] == Splitter)
            <==> Lookup(defs, ks[i]).splitterBefore
  {
    var d := Lookup(defs, ks[i]);
    var e := EntryItems(defs, ks[i], prefix);
    var before := CatalogBlock(defs, ks[..i], prefix);
    var after := CatalogBlock(defs, ks[i + 1..], prefix);
    var s := if d.splitterBefore then 1 else 0;
    CatalogBlockAround(defs, ks, i, prefix);
    LeafPositionAfterBlock(defs, ks, i, prefix);
    var b := before + e + after;
    assert |e| == s + 1 && e[s] == Leaf(CatalogLink(d, prefix));
    assert b[|before| + s] == e[s];
    if d.splitterBefore {
      assert b[|before|] == e[0] == Splitter;
    } else if i > 0 {
      CatalogBlockEndsWithLeaf(defs, ks[..i], prefix);
      assert b[|before| - 1] == before[|before| - 1];
    }
  }

  /** The block of `ks` is that of the keys before `i`, the items of key
      `i`, and the block of the keys after it. */
  lemma CatalogBlockAround(defs: seq<NavEntryDef>, ks: seq<string>, i: nat, prefix: string)
    requires Defines(defs, ks) && i < |ks|
    ensures CatalogBlock(defs, ks, prefix)
            == CatalogBlock(defs, ks[..i], prefix) + EntryItems(defs, ks[i], prefix) + CatalogBlock(defs, ks[i + 1..], prefix)
  {
    var rest := ks[i..];
    assert ks == ks[..i] + rest;
    CatalogBlockAppend(defs, ks[..i], rest, prefix);
    assert rest[0] == ks[i] && rest[1..] == ks[i + 1..];
  }

  /** The leaf of key `i` comes right after the block of the keys before it
      and, when its definition asks for one, a splitter. */
  lemma LeafPositionAfterBlock(defs: seq<NavEntryDef>, ks: seq<string>, i: nat, prefix: string)
    requires Defines(defs, ks) && i < |ks|
    ensures LeafPosition(defs, ks, i)
            == |CatalogBlock(defs, ks[..i], prefix)| + (if Lookup(defs, ks[i]).splitterBefore then 1 else 0)
  {
    assert ks[..i + 1] == ks[..i] + [ks[i]];
    WithSplitterAppend(defs, ks[..i], [ks[i]]);
    assert [ks[i]][1..] == [];
    CatalogBlockLength(defs, ks[..i], prefix);
  }

  lemma {:induction false} CatalogBlockEndsWithLeaf(defs: seq<NavEntryDef>, ks: seq<string>, prefix: string)
    requires Defines(defs, ks) && ks != []
    ensures CatalogBlock(defs, ks, prefix) != [] && CatalogBlock(defs, ks, prefix)[|CatalogBlock(defs, ks, prefix)| - 1].Leaf?
    decreases |ks|
  {
    if |ks| > 1 {
      CatalogBlockEndsWithLeaf(defs, ks[1..], prefix);
    }
  }

  /** With definitions labelled by their keys, every item of the block is a
      splitter or the leaf of one of `ks`, labelled by that key. */
  lemma {:induction false} CatalogBlockItems(defs: seq<NavEntryDef>, ks: seq<string>, prefix: string)
    requires Defines(defs, ks) && LabelledByKey(defs)
    ensures forall x :: x in CatalogBlock(defs, ks, prefix) ==>
              x.Splitter? || (x.Leaf? && x.link.title.Translated? && x.link.title.key in ks)
    decreases |ks|
  {
    if ks != [] {
      CatalogBlockItems(defs, ks[1..], prefix);
    }
  }

  // ---------------------------------------------------------------------
  // Collections panel

  /** A collection gets an entry unless it is `posts` or hidden. */
  predicate IsShown(c: Collection, hidden: seq<string>)
  {
    c.name != "posts" && c.name !in hidden
  }

  /** `col.sidebar_label || capitalize(col.label)`: an empty sidebar label
      falls back too. */
  function DisplayText(c: Collection, capitalize: string -> string): string
  {
    match c.sidebarLabel
    case Some(s) => if s != "" then s else capitalize(c.name)
    case None => capitalize(c.name)
  }

  function CollectionLink(c: Collection, prefix: string, capitalize: string -> string): Link
  {
    Link(prefix + "/collections/" + c.name, "book", Text(DisplayText(c, capitalize)))
  }

  /** The callback of `_.map` over the collections. */
  function CollectionEntry(c: Collection, hidden: seq<string>, prefix: string, capitalize: string -> string): Option<Link>
  {
    if IsShown(c, hidden) then Some(CollectionLink(c, prefix, capitalize)) else None
  }

  /** `_.map(collections, ...).filter(Boolean)`. */
  function CollectionItems(cols: seq<Collection>, hidden: seq<string>, prefix: string, capitalize: string -> string): (r: seq<Link>)
    ensures |r| <= |cols|
  {
    Compact(Map(cols, c => CollectionEntry(c, hidden, prefix, capitalize)))
  }

  /** The collections that get an entry, in input order. */
  function ShownCollections(cols: seq<Collection>, hidden: seq<string>): seq<Collection>
  {
    Filter(cols, c => IsShown(c, hidden))
  }

  /** The panel's entries are the links of the shown collections, in input order. */
  lemma {:induction false} CollectionItemsAreShown(cols: seq<Collection>, hidden: seq<string>, prefix: string, capitalize: string -> string)
    ensures CollectionItems(cols, hidden, prefix, capitalize)
            == Map(ShownCollections(cols, hidden), c => CollectionLink(c, prefix, capitalize))
    decreases |cols|
  {
    if cols != [] {
      var f := c => CollectionEntry(c, hidden, prefix, capitalize);
      assert Map(cols, f) == [f(cols[0])] + Map(cols[1..], f);
      CollectionItemsAreShown(cols[1..], hidden, prefix, capitalize);
    }
  }

  /** A collection is shown exactly when it is in the input, is not `posts`
      and is not hidden; the shown ones keep the input order. */
  lemma ShownCollectionsCharacterized(cols: seq<Collection>, hidden: seq<string>, c: Collection)
    ensures c in ShownCollections(cols, hidden) <==> c in cols && c.name != "posts" && c.name !in hidden
    ensures IsSubsequence(ShownCollections(cols, hidden), cols)
  {
    FilterMembership(cols, x => IsShown(x, hidden), c);
    FilterIsSubsequence(cols, x => IsShown(x, hidden));
  }

  /** `maxHeight` of the accordion: one row when collapsed, otherwise one
      row per entry plus the header row. */
  function PanelHeight(collapsed: bool, n: nat): (h: nat)
    ensures h >= RowHeight
  {
    if collapsed then RowHeight else (n + 1) * RowHeight
  }

  lemma PanelHeightCollapsedConstant(n: nat, m: nat)
    ensures PanelHeight(true, n) == PanelHeight(true, m) == 50
  {
  }

  lemma PanelHeightExpandedIncreasing(n: nat, m: nat)
    requires n < m
    ensures PanelHeight(false, n) < PanelHeight(false, m)
    ensures PanelHeight(false, n) == (n + 1) * 50
  {
  }

  /** `renderCollections`: no panel for an empty collection list, nor when
      nothing survives the filter. */
  function CollectionsPanel(cols: seq<Collection>, hidden: seq<string>, collapsed: bool, prefix: string, capitalize: string -> string): (r: Option<Item>)
    ensures r.Some? ==> r.value.Panel? && r.value.collapsed == collapsed
    ensures r.Some? ==> r.value.counter == |r.value.entries| > 0
    ensures r.Some? ==> r.value.maxHeight == PanelHeight(collapsed, r.value.counter)
  {
    if |cols| == 0 then None
    else
      var items := CollectionItems(cols, hidden, prefix, capitalize);
      if |items| == 0 then None
      else Some(Panel(collapsed, PanelHeight(collapsed, |items|), |items|, items))
  }

  /** The panel is present exactly when some collection is shown, and then
      lists exactly the shown collections. */
  lemma CollectionsPanelPresence(cols: seq<Collection>, hidden: seq<string>, collapsed: bool, prefix: string, capitalize: string -> string)
    ensures CollectionsPanel(cols, hidden, collapsed, prefix, capitalize).Some?
            <==> exists c :: c in cols && c.name != "posts" && c.name !in hidden
    ensures CollectionsPanel(cols, hidden, collapsed, prefix, capitalize).Some? ==>
            CollectionsPanel(cols, hidden, collapsed, prefix, capitalize).value.entries
            == Map(ShownCollections(cols, hidden), c => CollectionLink(c, prefix, capitalize))
  {
    CollectionItemsAreShown(cols, hidden, prefix, capitalize);
    var shown := ShownCollections(cols, hidden);
    if exists c :: c in cols && c.name != "posts" && c.name !in hidden {
      var c :| c in cols && c.name != "posts" && c.name !in hidden;
      ShownCollectionsCharacterized(cols, hidden, c);
    } else if shown != [] {
      ShownCollectionsCharacterized(cols, hidden, shown[0]);
    }
  }

  // ---------------------------------------------------------------------
  // Layout

  function PostsLink(prefix: string): Link
  {
    Link(prefix + "/collections/posts", "book", Translated("posts"))
  }

  function DraftsLink(prefix: string): Link
  {
    Link(prefix + "/drafts", "edit", Translated("drafts"))
  }

  predicate PostsVisible(hidden: seq<string>)
  {
    "posts" !in hidden
  }

  /** `config && config.show_drafts`. */
  predicate DraftsVisible(config: Option<Config>)
  {
    config.Some? && config.value.showDrafts == Some(true)
  }

  /** The part of the route list before the catalog block: the collections
      panel, posts, drafts, and a splitter when any of those three is present. */
  function TopBlock(config: Option<Config>, cols: seq<Collection>, collapsed: bool, prefix: string, capitalize: string -> string): (t: seq<Item>)
    ensures |t| <= 4
    ensures t != [] ==> t[|t| - 1] == Splitter
  {
    var hidden := HiddenLinks(config);
    var panel := CollectionsPanel(cols, hidden, collapsed, prefix, capitalize);
    var posts := PostsVisible(hidden);
    var drafts := DraftsVisible(config);
    (if panel.Some? then [panel.value] else [])
    + ((if posts then [Leaf(PostsLink(prefix))] else [])
       + ((if drafts then [Leaf(DraftsLink(prefix))] else [])
          + (if panel.Some? || posts || drafts then [Splitter] else [])))
  }

  /** Where the logo above the route list leads. */
  function LogoHref(prefix: string): string
  {
    prefix + "/pages"
  }

  /** The logo leads where the catalog's `pages` entry does. */
  lemma LogoLeadsToPages(prefix: string)
    ensures InCatalog("pages") && LogoHref(prefix) == CatalogLink(Definition("pages"), prefix).href
  {
    CatalogEntryAt(0, prefix);
    assert prefix + "/" + "pages" == prefix + "/pages";
  }

  /** The whole route list: the top block, then the catalog block. */
  function Layout(config: Option<Config>, cols: seq<Collection>, collapsed: bool, prefix: string, capitalize: string -> string): seq<Item>
  {
    TopBlock(config, cols, collapsed, prefix, capitalize) + CatalogBlock(Catalog(), VisibleKeys(HiddenLinks(config)), prefix)
  }

  lemma LabelsOutsideCatalog()
    ensures !InCatalog("posts") && !InCatalog("drafts")
  {
    CatalogKeysInOrder();
  }

  /** The only leaves of the top block are the posts and drafts entries,
      each present exactly when it is enabled. */
  lemma TopBlockLeaves(config: Option<Config>, cols: seq<Collection>, collapsed: bool, prefix: string, capitalize: string -> string, l: Link)
    ensures Leaf(l) in TopBlock(config, cols, collapsed, prefix, capitalize)
            <==> (PostsVisible(HiddenLinks(config)) && l == PostsLink(prefix))
                 || (DraftsVisible(config) && l == DraftsLink(prefix))
  {
  }

  /** A leaf whose label is not a visible key is not in the catalog block. */
  lemma LeafOutsideCatalogBlock(hidden: seq<string>, prefix: string, l: Link)
    requires l.title.Translated? && l.title.key !in VisibleKeys(hidden)
    ensures Leaf(l) !in CatalogBlock(Catalog(), VisibleKeys(hidden), prefix)
  {
    CatalogLabelledByKey();
    CatalogBlockItems(Catalog(), VisibleKeys(hidden), prefix);
  }

  /** The posts entry appears exactly when `posts` is not hidden, whatever
      the collections are. */
  lemma PostsLeafIff(config: Option<Config>, cols: seq<Collection>, collapsed: bool, prefix: string, capitalize: string -> string)
    ensures Leaf(PostsLink(prefix)) in Layout(config, cols, collapsed, prefix, capitalize)
            <==> "posts" !in HiddenLinks(config)
  {
    LabelsOutsideCatalog();
    VisibleKeysMembership(HiddenLinks(config), "posts");
    LeafOutsideCatalogBlock(HiddenLinks(config), prefix, PostsLink(prefix));
    TopBlockLeaves(config, cols, collapsed, prefix, capitalize, PostsLink(prefix));
  }

  /** The drafts entry appears exactly when `show_drafts` is set. */
  lemma DraftsLeafIff(config: Option<Config>, cols: seq<Collection>, collapsed: bool, prefix: string, capitalize: string -> string)
    ensures Leaf(DraftsLink(prefix)) in Layout(config, cols, collapsed, prefix, capitalize)
            <==> config.Some? && config.value.showDrafts == Some(true)
  {
    LabelsOutsideCatalog();
    VisibleKeysMembership(HiddenLinks(config), "drafts");
    LeafOutsideCatalogBlock(HiddenLinks(config), prefix, DraftsLink(prefix));
    TopBlockLeaves(config, cols, collapsed, prefix, capitalize, DraftsLink(prefix));
  }

  /** A hidden catalog entry contributes no leaf anywhere in the sidebar. */
  lemma HiddenEntryAbsent(config: Option<Config>, cols: seq<Collection>, collapsed: bool, prefix: string, capitalize: string -> string, key: string)
    requires InCatalog(key) && key in HiddenLinks(config)
    ensures Leaf(CatalogLink(Definition(key), prefix)) !in Layout(config, cols, collapsed, prefix, capitalize)
  {
    var l := CatalogLink(Definition(key), prefix);
    DefinitionFacts(key);
    LabelsOutsideCatalog();
    VisibleKeysMembership(HiddenLinks(config), key);
    LeafOutsideCatalogBlock(HiddenLinks(config), prefix, l);
    TopBlockLeaves(config, cols, collapsed, prefix, capitalize, l);
  }

  /** The top block holds the panel, posts and drafts in that order, then a
      splitter, and is empty when none of the three is present. */
  lemma TopBlockStructure(config: Option<Config>, cols: seq<Collection>, collapsed: bool, prefix: string, capitalize: string -> string)
    ensures
      var hidden := HiddenLinks(config);
      var panel := CollectionsPanel(cols, hidden, collapsed, prefix, capitalize);
      var t := TopBlock(config, cols, collapsed, prefix, capitalize);
      var n := (if panel.Some? then 1 else 0) + (if "posts" !in hidden then 1 else 0) + (if DraftsVisible(config) then 1 else 0);
      && |t| == (if n == 0 then 0 else n + 1)
      && (|t| > 0 ==> t[|t| - 1] == Splitter)
      && (panel.Some? ==> t[0] == panel.value)
      && ("posts" !in hidden ==> t[if panel.Some? then 1 else 0] == Leaf(PostsLink(prefix)))
      && (DraftsVisible(config) ==> t[n - 1] == Leaf(DraftsLink(prefix)))
  {
    var hidden := HiddenLinks(config);
    var panel := CollectionsPanel(cols, hidden, collapsed, prefix, capitalize);
    var a: seq<Item> := if panel.Some? then [panel.value] else [];
    var b: seq<Item> := if PostsVisible(hidden) then [Leaf(PostsLink(prefix))] else [];
    var c: seq<Item> := if DraftsVisible(config) then [Leaf(DraftsLink(prefix))] else [];
    var d: seq<Item> := if panel.Some? || PostsVisible(hidden) || DraftsVisible(config) then [Splitter] else [];
    assert TopBlock(config, cols, collapsed, prefix, capitalize) == a + (b + (c + d));
    OptionalRowThenSplitter(a, b, c);
  }

  /** Up to three optional items followed by a splitter that is present
      exactly when one of them is: the items keep their order. */
  lemma OptionalRowThenSplitter(a: seq<Item>, b: seq<Item>, c: seq<Item>)
    requires |a| <= 1 && |b| <= 1 && |c| <= 1
    ensures
      var t := a + (b + (c + (if a != [] || b != [] || c != [] then [Splitter] else [])));
      var n := |a| + |b| + |c|;
      && |t| == (if n == 0 then 0 else n + 1)
      && (|t| > 0 ==> t[|t| - 1] == Splitter)
      && (a != [] ==> t[0] == a[0])
      && (b != [] ==> t[|a|] == b[0])
      && (c != [] ==> t[|a| + |b|] == c[0])
  {
  }

  /** Collapsing or expanding the accordion changes at most the first item
      of the route list, and then only the panel's flag and height: its
      entries and counter stay. */
  lemma CollapsingChangesOnlyThePanel(config: Option<Config>, cols: seq<Collection>, collapsed: bool, collapsed': bool, prefix: string, capitalize: string -> string)
    ensures
      var l := Layout(config, cols, collapsed, prefix, capitalize);
      var l' := Layout(config, cols, collapsed', prefix, capitalize);
      && |l| == |l'|
      && (forall i :: 0 < i < |l| ==> l[i] == l'[i])
      && (|l| > 0 && l[0] != l'[0] ==>
            l[0].Panel? && l'[0].Panel? && l[0].collapsed == collapsed && l'[0].collapsed == collapsed'
            && l[0].entries == l'[0].entries && l[0].counter == l'[0].counter)
  {
    var t := TopBlock(config, cols, collapsed, prefix, capitalize);
    var t' := TopBlock(config, cols, collapsed', prefix, capitalize);
    TopBlockCollapse(config, cols, collapsed, collapsed', prefix, capitalize);
    HeadOnlyDiffers(t, t', CatalogBlock(Catalog(), VisibleKeys(HiddenLinks(config)), prefix));
  }

  /** The top block under two accordion states: same length, same items
      after the first, and a first item that differs only as a panel. */
  lemma TopBlockCollapse(config: Option<Config>, cols: seq<Collection>, collapsed: bool, collapsed': bool, prefix: string, capitalize: string -> string)
    ensures
      var t := TopBlock(config, cols, collapsed, prefix, capitalize);
      var t' := TopBlock(config, cols, collapsed', prefix, capitalize);
      && |t| == |t'|
      && (t != [] ==> t[1..] == t'[1..])
      && (t != [] && t[0] != t'[0] ==>
            t[0].Panel? && t'[0].Panel? && t[0].collapsed == collapsed && t'[0].collapsed == collapsed'
            && t[0].entries == t'[0].entries && t[0].counter == t'[0].counter)
  {
    var hidden := HiddenLinks(config);
    var p := CollectionsPanel(cols, hidden, collapsed, prefix, capitalize);
    var p' := CollectionsPanel(cols, hidden, collapsed', prefix, capitalize);
    assert p.Some? == p'.Some? && (p.Some? ==> p.value.entries == p'.value.entries);
  }

  /** Two lists with the same length that agree after their first item keep
      doing so when the same tail is appended. */
  lemma HeadOnlyDiffers(t: seq<Item>, t': seq<Item>, tail: seq<Item>)
    requires |t| == |t'| && (t != [] ==> t[1..] == t'[1..])
    ensures |t + tail| == |t' + tail|
    ensures forall i :: 0 < i < |t + tail| ==> (t + tail)[i] == (t' + tail)[i]
    ensures |t + tail| > 0 && (t + tail)[0] != (t' + tail)[0] ==> t != [] && (t + tail)[0] == t[0] && (t' + tail)[0] == t'[0]
  {
    if t != [] {
      assert forall i :: 0 < i < |t| ==> t[i] == t[1..][i - 1] && t'[i] == t'[1..][i - 1];
    }
  }

  /** Overall order: the top block comes first and the catalog block ends the list. */
  lemma LayoutStructure(config: Option<Config>, cols: seq<Collection>, collapsed: bool, prefix: string, capitalize: string -> string)
    ensures
      var l := Layout(config, cols, collapsed, prefix, capitalize);
      var t := TopBlock(config, cols, collapsed, prefix, capitalize);
      && |t| <= |l|
      && l[..|t|] == t
      && l[|t|..] == CatalogBlock(Catalog(), VisibleKeys(HiddenLinks(config)), prefix)
  {
  }

  /** The catalog splitters number exactly the visible entries with
      `splitterBefore`. */
  lemma CatalogSplitterCount(config: Option<Config>, prefix: string)
    ensures
      var visible := VisibleKeys(HiddenLinks(config));
      CountSplitters(CatalogBlock(Catalog(), visible, prefix)) == |WithSplitter(Catalog(), visible)|
  {
    CatalogBlockSplitters(Catalog(), VisibleKeys(HiddenLinks(config)), prefix);
  }

  /** Drafts shown, collections `posts` and `team`, and a hide-list that
      names `staticfiles` but no other catalog key, nor `posts` or `team`
      (other names may be on it): the panel lists only
      `team`, then come posts, drafts, a splitter and the remaining catalog
      entries, each with its splitter. */
  lemma ScenarioHiddenStaticFiles(hidden: seq<string>, prefix: string, capitalize: string -> string)
    requires "staticfiles" in hidden && "pages" !in hidden && "datafiles" !in hidden && "configuration" !in hidden
    requires "posts" !in hidden && "team" !in hidden
    ensures Layout(Some(Config(Some(true), Some(AdminSettings(Some(hidden))))),
                   [Collection("posts", None), Collection("team", None)], true, prefix, capitalize)
            == [Panel(true, 50, 1, [Link(prefix + "/collections/" + "team", "book", Text(capitalize("team")))]),
                Leaf(PostsLink(prefix)), Leaf(DraftsLink(prefix)), Splitter]
               + ([Leaf(Link(prefix + "/" + "pages", "file-text", Translated("pages")))]
                  + ([Splitter, Leaf(Link(prefix + "/" + "datafiles", "database", Translated("datafiles")))]
                     + [Splitter, Leaf(Link(prefix + "/" + "configuration", "cog", Translated("configuration")))]))
  {
    ScenarioHiddenStaticFilesTop(hidden, prefix, capitalize);
    ScenarioHiddenStaticFilesCatalog(hidden, prefix);
  }

  lemma ScenarioHiddenStaticFilesTop(hidden: seq<string>, prefix: string, capitalize: string -> string)
    requires "posts" !in hidden && "team" !in hidden
    ensures TopBlock(Some(Config(Some(true), Some(AdminSettings(Some(hidden))))),
                     [Collection("posts", None), Collection("team", None)], true, prefix, capitalize)
            == [Panel(true, 50, 1, [Link(prefix + "/collections/" + "team", "book", Text(capitalize("team")))]),
                Leaf(PostsLink(prefix)), Leaf(DraftsLink(prefix)), Splitter]
  {
    var config := Some(Config(Some(true), Some(AdminSettings(Some(hidden)))));
    var cols := [Collection("posts", None), Collection("team", None)];
    var team := Link(prefix + "/collections/" + "team", "book", Text(capitalize("team")));
    assert HiddenLinks(config) == hidden;
    assert CollectionItems(cols, hidden, prefix, capitalize) == [team] by {
      assert ShownCollections(cols, hidden) == [Collection("team", None)] by {
        assert cols[1..][1..] == [];
      }
      CollectionItemsAreShown(cols, hidden, prefix, capitalize);
    }
  }

  lemma ScenarioHiddenStaticFilesCatalog(hidden: seq<string>, prefix: string)
    requires "staticfiles" in hidden && "pages" !in hidden && "datafiles" !in hidden && "configuration" !in hidden
    ensures CatalogBlock(Catalog(), VisibleKeys(hidden), prefix)
            == [Leaf(Link(prefix + "/" + "pages", "file-text", Translated("pages")))]
               + ([Splitter, Leaf(Link(prefix + "/" + "datafiles", "database", Translated("datafiles")))]
                  + [Splitter, Leaf(Link(prefix + "/" + "configuration", "cog", Translated("configuration")))])
  {
    VisibleKeysHidingStaticFiles(hidden);
    CatalogBlockWithoutStaticFiles(prefix);
  }

  lemma VisibleKeysHidingStaticFiles(hidden: seq<string>)
    requires "staticfiles" in hidden && "pages" !in hidden && "datafiles" !in hidden && "configuration" !in hidden
    ensures VisibleKeys(hidden) == ["pages", "datafiles", "configuration"]
  {
    var ks := CatalogKeys();
    var p := k => k !in hidden;
    assert ks == ["pages", "datafiles", "staticfiles", "configuration"] by {
      CatalogKeysInOrder();
    }
    var r := ks[1..];
    assert r == ["datafiles", "staticfiles", "configuration"];
    assert r[1..] == ["staticfiles", "configuration"] && r[1..][1..] == ["configuration"] && r[1..][1..][1..] == [];
    assert Filter(r[1..][1..], p) == ["configuration"];
    assert Filter(r[1..], p) == ["configuration"];
    assert Filter(r, p) == ["datafiles", "configuration"];
  }

  lemma CatalogBlockWithoutStaticFiles(prefix: string)
    ensures CatalogBlock(Catalog(), ["pages", "datafiles", "configuration"], prefix)
            == [Leaf(Link(prefix + "/" + "pages", "file-text", Translated("pages")))]
               + ([Splitter, Leaf(Link(prefix + "/" + "datafiles", "database", Translated("datafiles")))]
                  + [Splitter, Leaf(Link(prefix + "/" + "configuration", "cog", Translated("configuration")))])
  {
    CatalogBlockOfKnownKeys(prefix);
    CatalogBlockOfThree(Catalog(), "pages", "datafiles", "configuration", prefix);
  }

  /** An empty configuration and no collections: posts, a splitter and the
      full catalog, `datafiles` and `configuration` each after a splitter. */
  lemma ScenarioEmptyConfig(prefix: string, capitalize: string -> string)
    ensures Layout(Some(Config(None, None)), [], true, prefix, capitalize)
            == [Leaf(PostsLink(prefix)), Splitter]
               + ([Leaf(Link(prefix + "/" + "pages", "file-text", Translated("pages")))]
                  + ([Splitter, Leaf(Link(prefix + "/" + "datafiles", "database", Translated("datafiles")))]
                     + ([Leaf(Link(prefix + "/" + "staticfiles", "file", Translated("staticfiles")))]
                        + [Splitter, Leaf(Link(prefix + "/" + "configuration", "cog", Translated("configuration")))])))
  {
    var config := Some(Config(None, None));
    assert TopBlock(config, [], true, prefix, capitalize) == [Leaf(PostsLink(prefix)), Splitter];
    NoHideListShowsFullCatalog(config);
    CatalogBlockOfAllKeys(prefix);
  }

  lemma CatalogBlockOfAllKeys(prefix: string)
    ensures CatalogBlock(Catalog(), ["pages", "datafiles", "staticfiles", "configuration"], prefix)
            == [Leaf(Link(prefix + "/" + "pages", "file-text", Translated("pages")))]
               + ([Splitter, Leaf(Link(prefix + "/" + "datafiles", "database", Translated("datafiles")))]
                  + ([Leaf(Link(prefix + "/" + "staticfiles", "file", Translated("staticfiles")))]
                     + [Splitter, Leaf(Link(prefix + "/" + "configuration", "cog", Translated("configuration")))]))
  {
    CatalogBlockOfKnownKeys(prefix);
    CatalogBlockOfFour(Catalog(), "pages", "datafiles", "staticfiles", "configuration", prefix);
  }

  /** The block of a short key list is the concatenation of the entries' items. */
  lemma CatalogBlockOfThree(defs: seq<NavEntryDef>, a: string, b: string, c: string, prefix: string)
    requires a in KeysOf(defs) && b in KeysOf(defs) && c in KeysOf(defs)
    ensures CatalogBlock(defs, [a, b, c], prefix)
            == EntryItems(defs, a, prefix) + (EntryItems(defs, b, prefix) + EntryItems(defs, c, prefix))
  {
    assert [a, b, c][1..] == [b, c] && [b, c][1..] == [c];
    CatalogBlockSingleton(defs, c, prefix);
  }

  lemma CatalogBlockOfFour(defs: seq<NavEntryDef>, a: string, b: string, c: string, d: string, prefix: string)
    requires a in KeysOf(defs) && b in KeysOf(defs) && c in KeysOf(defs) && d in KeysOf(defs)
    ensures CatalogBlock(defs, [a, b, c, d], prefix)
            == EntryItems(defs, a, prefix) + (EntryItems(defs, b, prefix) + (EntryItems(defs, c, prefix) + EntryItems(defs, d, prefix)))
  {
    assert [a, b, c, d][1..] == [b, c, d];
    CatalogBlockOfThree(defs, b, c, d, prefix);
  }

  /** The items each catalog entry contributes, written out. */
  lemma CatalogBlockOfKnownKeys(prefix: string)
    ensures "pages" in KeysOf(Catalog()) && EntryItems(Catalog(), "pages", prefix) == [Leaf(Link(prefix + "/" + "pages", "file-text", Translated("pages")))]
    ensures "datafiles" in KeysOf(Catalog()) && EntryItems(Catalog(), "datafiles", prefix) == [Splitter, Leaf(Link(prefix + "/" + "datafiles", "database", Translated("datafiles")))]
    ensures "staticfiles" in KeysOf(Catalog()) && EntryItems(Catalog(), "staticfiles", prefix) == [Leaf(Link(prefix + "/" + "staticfiles", "file", Translated("staticfiles")))]
    ensures "configuration" in KeysOf(Catalog()) && EntryItems(Catalog(), "configuration", prefix) == [Splitter, Leaf(Link(prefix + "/" + "configuration", "cog", Translated("configuration")))]
  {
    CatalogEntryAt(0, prefix);
    CatalogEntryAt(1, prefix);
    CatalogEntryAt(2, prefix);
    CatalogEntryAt(3, prefix);
  }

  /** The keys of the catalog are distinct, so looking up the key of its
      `i`-th entry finds that entry. */
  lemma CatalogEntryAt(i: nat, prefix: string)
    requires i < |Catalog()|
    ensures Catalog()[i].key in KeysOf(Catalog())
    ensures EntryItems(Catalog(), Catalog()[i].key, prefix)
            == (if Catalog()[i].splitterBefore then [Splitter] else []) + [Leaf(CatalogLink(Catalog()[i], prefix))]
  {
    var defs := Catalog();
    assert defs[1..][1..] == defs[2..] && defs[2..][1..] == defs[3..];
    assert KeysOf(defs) == ["pages", "datafiles", "staticfiles", "configuration"] by {
      CatalogKeysInOrder();
    }
    if i == 0 {
    } else if i == 1 {
      assert Lookup(defs, defs[1].key) == Lookup(defs[1..], defs[1].key);
    } else if i == 2 {
      assert Lookup(defs, defs[2].key) == Lookup(defs[1..], defs[2].key) == Lookup(defs[2..], defs[2].key);
    } else {
      assert Lookup(defs, defs[3].key) == Lookup(defs[1..], defs[3].key)
          == Lookup(defs[2..], defs[3].key) == Lookup(defs[3..], defs[3].key);
    }
  }

  // ---------------------------------------------------------------------
  // Accordion state

  /** The click handler's reducer. */
  function Toggle(collapsed: bool): (r: bool)
    ensures r != collapsed
  {
    !collapsed
  }

  lemma ToggleTwice(collapsed: bool)
    ensures Toggle(Toggle(collapsed)) == collapsed
  {
  }

  /** The sidebar component: its only state is whether the collections
      accordion is collapsed; configuration and collections come in with
      each render. */
  class Sidebar {
    var collapsedPanel: bool

    constructor ()
      ensures collapsedPanel
    {
      collapsedPanel := true;
    }

    /** `handleClick`: flips the accordion and nothing else. */
    method HandleClick()
      modifies this
      ensures collapsedPanel == Toggle(old(collapsedPanel))
    {
      collapsedPanel := !collapsedPanel;
    }

    /** `render`: computes the logo's target and the route list for the
        given props. */
    method Render(config: Option<Config>, collections: seq<Collection>, prefix: string, capitalize: string -> string)
      returns (logo: string, items: seq<Item>)
      ensures logo == LogoHref(prefix)
      ensures items == Layout(config, collections, collapsedPanel, prefix, capitalize)
    {
      logo := prefix + "/pages";
      var hiddenLinks := HiddenLinks(config);
      var visibleLinks := VisibleKeys(hiddenLinks);
      var links := ExpandCatalog(Catalog(), visibleLinks, prefix);
      items := TopBlock(config, collections, collapsedPanel, prefix, capitalize);
      items := items + links;
    }
  }

  /** Two clicks restore the accordion. */
  method ClickTwiceRestores(s: Sidebar)
    modifies s
    ensures s.collapsedPanel == old(s.collapsedPanel)
  {
    s.HandleClick();
    s.HandleClick();
  }
}
