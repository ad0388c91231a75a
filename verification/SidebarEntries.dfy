/**
 The first half of `PanelInstance.navigation` of packages/admin/src/PanelInstance.ts: one `NavItem` object for each
 entry of the sidebar, gathered into groups and clusters. `locale` is the collation of labels, which are called
 captions here.
 */
module SidebarEntries {
  import opened ParentForest
  import opened StableSort
  import opened Wrappers

  datatype Place = InGroup(group: Option<string>) | InCluster(cluster: nat)

  datatype Entry = Entry(
    caption: string,
    slug: string,
    href: string,
    sort: int,
    parent: Option<string>,
    ability: Option<string>,
    external: bool,
    place: Place)

  datatype Resource = Resource(
    caption: string,
    slug: string,
    url: string,
    sort: int,
    parentItem: Option<string>,
    nested: bool,
    cluster: Option<nat>,
    group: Option<string>)

  datatype Page = Page(
    caption: string,
    slug: string,
    path: string,
    sort: int,
    ability: Option<string>,
    shown: bool,
    cluster: Option<nat>,
    group: Option<string>)

  datatype Console = Console(
    caption: Option<string>,
    title: string,
    slug: string,
    sort: Option<int>,
    ability: Option<string>,
    shown: Option<bool>,
    group: Option<string>)

  datatype Link = Link(
    caption: string,
    href: string,
    sort: Option<int>,
    ability: Option<string>,
    external: bool,
    group: Option<string>)

  datatype Cluster = Cluster(caption: string, slug: string, url: string, sort: int, ability: Option<string>, group: Option<string>)

  /** What is registered on a panel; a cluster is known by its number. */
  datatype Panel = Panel(
    base: string,
    resources: seq<Resource>,
    pages: seq<Page>,
    consoles: seq<Console>,
    links: seq<Link>,
    clusters: nat -> Cluster)

  class NavItem {
    const entry: Entry
    var children: Option<seq<NavItem>>

    constructor (entry: Entry, children: Option<seq<NavItem>>)
      ensures this.entry == entry && this.children == children
    {
      this.entry, this.children := entry, children;
    }
  }

  datatype NavGroup = NavGroup(group: Option<string>, items: seq<NavItem>)

  function ChildrenOf(x: NavItem): seq<NavItem>
    reads x
  {
    if x.children.Some? then x.children.value else []
  }

  // ---------------------------------------------------------------- order

  type Locale = (string, string) -> int

  ghost predicate Collation(locale: Locale) {
    && (forall a, b :: locale(a, b) <= 0 || locale(b, a) <= 0)
    && forall a, b, c :: locale(a, b) <= 0 && locale(b, c) <= 0 ==> locale(a, c) <= 0
  }

  /** `a.sort - b.sort || a.label.localeCompare(b.label)` is not positive. */
  predicate MayPrecede(locale: Locale, a: Entry, b: Entry) {
    a.sort < b.sort || (a.sort == b.sort && locale(a.caption, b.caption) <= 0)
  }

  function EntryLe(locale: Locale): (Entry, Entry) -> bool {
    (a: Entry, b: Entry) => MayPrecede(locale, a, b)
  }

  function ItemLe(locale: Locale): (NavItem, NavItem) -> bool {
    (a: NavItem, b: NavItem) => MayPrecede(locale, a.entry, b.entry)
  }

  /** Ungrouped first, then by name. */
  predicate GroupMayPrecede(locale: Locale, a: Option<string>, b: Option<string>) {
    a.None? || (b.Some? && locale(a.value, b.value) <= 0)
  }

  function GroupLe(locale: Locale): (NavGroup, NavGroup) -> bool {
    (a: NavGroup, b: NavGroup) => GroupMayPrecede(locale, a.group, b.group)
  }

  lemma ItemsInOrder(locale: Locale, items: seq<NavItem>)
    requires Collation(locale)
    ensures InOrder(ItemLe(locale), SortedBy(ItemLe(locale), items))
  {
    var le := ItemLe(locale);
    assert forall a, b :: a in items && b in items ==> le(a, b) == MayPrecede(locale, a.entry, b.entry);
    SortOrders(le, items);
  }

  lemma ItemsTieInOrder(locale: Locale, items: seq<NavItem>, y: NavItem)
    requires Collation(locale)
    ensures Ties(ItemLe(locale), SortedBy(ItemLe(locale), items), y) == Ties(ItemLe(locale), items, y)
  {
    var le := ItemLe(locale);
    assert forall a, b :: a in items + [y] && b in items + [y] ==> le(a, b) == MayPrecede(locale, a.entry, b.entry);
    SortIsStable(le, items, y);
  }

  lemma GroupsInOrder(locale: Locale, groups: seq<NavGroup>)
    requires Collation(locale)
    ensures InOrder(GroupLe(locale), SortedBy(GroupLe(locale), groups))
  {
    var le := GroupLe(locale);
    assert forall a, b :: a in groups && b in groups ==> le(a, b) == GroupMayPrecede(locale, a.group, b.group);
    SortOrders(le, groups);
  }

  lemma {:induction false} CountsWithin<T>(s: seq<T>, i: nat, j: nat)
    requires i < j < |s| && s[i] == s[j]
    ensures multiset(s)[s[i]] >= 2
  {
    assert s == s[..j] + [s[j]] + s[j + 1..];
    assert s[..j][i] in s[..j];
    assert s[j] in multiset(s[..j]);
  }

  lemma SortKeepsDistinct<T>(le: (T, T) -> bool, s: seq<T>)
    requires NoDuplicates(s)
    ensures NoDuplicates(SortedBy(le, s))
  {
    var r := SortedBy(le, s);
    SortKeeps(le, s);
    forall i, j | 0 <= i < j < |r| ensures r[i] != r[j] {
      if r[i] == r[j] {
        CountsWithin(r, i, j);
        CountOnce(s, r[i]);
      }
    }
  }

  // ---------------------------------------------------------------- what is declared

  function PlaceOf(cluster: Option<nat>, group: Option<string>): Place {
    if cluster.Some? then InCluster(cluster.value) else InGroup(group)
  }

  function OrElse<T>(o: Option<T>, d: T): T {
    if o.Some? then o.value else d
  }

  function ResourceEntry(r: Resource): Entry {
    Entry(r.caption, r.slug, r.url, r.sort, r.parentItem, None, false, PlaceOf(r.cluster, r.group))
  }

  function PageEntry(base: string, p: Page): Entry {
    Entry(p.caption, p.slug, base + "/" + p.path, p.sort, None, p.ability, false, PlaceOf(p.cluster, p.group))
  }

  function ConsoleEntry(base: string, c: Console): Entry {
    Entry(OrElse(c.caption, c.title), c.slug, base + "/" + c.slug, OrElse(c.sort, 0), None, c.ability, false, InGroup(c.group))
  }

  function LinkEntry(l: Link): Entry {
    Entry(l.caption, l.href, l.href, OrElse(l.sort, 0), None, l.ability, l.external, InGroup(l.group))
  }

  /** Resources reached through a parent record have no entry. */
  function ResourceEntries(rs: seq<Resource>): seq<Entry> {
    if rs == [] then []
    else ResourceEntries(rs[..|rs| - 1]) + var r := rs[|rs| - 1]; if r.nested then [] else [ResourceEntry(r)]
  }

  function PageEntries(base: string, ps: seq<Page>): seq<Entry> {
    if ps == [] then []
    else PageEntries(base, ps[..|ps| - 1]) + var p := ps[|ps| - 1]; if p.shown then [PageEntry(base, p)] else []
  }

  function ConsoleEntries(base: string, cs: seq<Console>): seq<Entry> {
    if cs == [] then []
    else ConsoleEntries(base, cs[..|cs| - 1]) + var c := cs[|cs| - 1]; if c.shown == Some(false) then [] else [ConsoleEntry(base, c)]
  }

  function LinkEntries(ls: seq<Link>): seq<Entry> {
    seq(|ls|, i requires 0 <= i < |ls| => LinkEntry(ls[i]))
  }

  function OwnEntries(panel: Panel): seq<Entry> {
    ResourceEntries(panel.resources) + PageEntries(panel.base, panel.pages) + ConsoleEntries(panel.base, panel.consoles)
    + LinkEntries(panel.links)
  }

  function EntriesAt(es: seq<Entry>, place: Place): seq<Entry> {
    if es == [] then []
    else EntriesAt(es[..|es| - 1], place) + if es[|es| - 1].place == place then [es[|es| - 1]] else []
  }

  /** The clusters with members, by first member. */
  function ClusterOrder(es: seq<Entry>): seq<nat> {
    if es == [] then []
    else
      var before, last := ClusterOrder(es[..|es| - 1]), es[|es| - 1].place;
      if last.InCluster? && last.cluster !in before then before + [last.cluster] else before
  }

  /** A cluster links to its first member. */
  function ClusterEntry(panel: Panel, locale: Locale, es: seq<Entry>, c: nat): Entry {
    var cluster, members := panel.clusters(c), SortedBy(EntryLe(locale), EntriesAt(es, InCluster(c)));
    Entry(cluster.caption, cluster.slug, if members != [] then members[0].href else cluster.url, cluster.sort, None,
          cluster.ability, false, InGroup(cluster.group))
  }

  function ClusterEntries(panel: Panel, locale: Locale, es: seq<Entry>, cs: seq<nat>): seq<Entry> {
    seq(|cs|, i requires 0 <= i < |cs| => ClusterEntry(panel, locale, es, cs[i]))
  }

  /** Every entry of the sidebar, in the order they are made. */
  function Declared(panel: Panel, locale: Locale): seq<Entry> {
    var own := OwnEntries(panel);
    own + ClusterEntries(panel, locale, own, ClusterOrder(own))
  }

  // ---------------------------------------------------------------- gathering

  function EntriesOf(items: seq<NavItem>): seq<Entry> {
    seq(|items|, i requires 0 <= i < |items| => items[i].entry)
  }

  function ItemsAt(items: seq<NavItem>, place: Place): seq<NavItem> {
    if items == [] then []
    else ItemsAt(items[..|items| - 1], place) + if items[|items| - 1].entry.place == place then [items[|items| - 1]] else []
  }

  lemma {:induction false} ItemsAtAre(items: seq<NavItem>, place: Place)
    ensures forall x :: x in ItemsAt(items, place) <==> x in items && x.entry.place == place
    ensures forall i :: 0 <= i < |ItemsAt(items, place)| ==> ItemsAt(items, place)[i] in items && ItemsAt(items, place)[i].entry.place == place
  {
    if items != [] {
      ItemsAtAre(items[..|items| - 1], place);
      assert items == items[..|items| - 1] + [items[|items| - 1]];
    }
  }

  lemma {:induction false} ItemsAtDistinct(items: seq<NavItem>, place: Place)
    requires NoDuplicates(items)
    ensures NoDuplicates(ItemsAt(items, place))
  {
    if items != [] {
      var init, last := items[..|items| - 1], items[|items| - 1];
      LastIsNew(items);
      ItemsAtDistinct(init, place);
      ItemsAtAre(init, place);
      JoinWithoutDuplicates(ItemsAt(init, place), if last.entry.place == place then [last] else []);
    }
  }

  lemma {:induction false} EntriesOfItemsAt(items: seq<NavItem>, place: Place)
    ensures EntriesOf(ItemsAt(items, place)) == EntriesAt(EntriesOf(items), place)
  {
    if items != [] {
      EntriesOfItemsAt(items[..|items| - 1], place);
      assert EntriesOf(items)[..|items| - 1] == EntriesOf(items[..|items| - 1]);
    }
  }

  lemma OneMore(items: seq<NavItem>, x: NavItem, place: Place)
    ensures ItemsAt(items + [x], place) == ItemsAt(items, place) + if x.entry.place == place then [x] else []
    ensures EntriesOf(items + [x]) == EntriesOf(items) + [x.entry]
  {
    assert (items + [x])[..|items|] == items;
  }

  lemma ClusterOrderStep(es: seq<Entry>, e: Entry)
    ensures ClusterOrder(es + [e]) ==
            if e.place.InCluster? && e.place.cluster !in ClusterOrder(es) then ClusterOrder(es) + [e.place.cluster] else ClusterOrder(es)
  {
    assert (es + [e])[..|es|] == es;
  }

  /** `m.get(k) ?? []`. */
  function At<K(==), V>(m: map<K, seq<V>>, k: K): seq<V> {
    if k in m then m[k] else []
  }

  /** Every group lists its items, in the order they were made. */
  ghost predicate Grouped(groups: map<Option<string>, seq<NavItem>>, keys: seq<Option<string>>, made: seq<NavItem>) {
    && NoDuplicates(keys)
    && (forall g :: g in keys <==> g in groups)
    && forall g :: At(groups, g) == ItemsAt(made, InGroup(g))
  }

  ghost predicate Clustered(clustered: map<nat, seq<NavItem>>, keys: seq<nat>, made: seq<NavItem>) {
    && (forall c :: c in keys <==> c in clustered)
    && (forall c :: At(clustered, c) == ItemsAt(made, InCluster(c)))
    && keys == ClusterOrder(EntriesOf(made))
  }

  lemma GroupedStep(groups: map<Option<string>, seq<NavItem>>, keys: seq<Option<string>>, made: seq<NavItem>, x: NavItem)
    requires Grouped(groups, keys, made)
    ensures x.entry.place.InCluster? ==> Grouped(groups, keys, made + [x])
    ensures x.entry.place.InGroup? ==>
              var g := x.entry.place.group;
              Grouped(groups[g := At(groups, g) + [x]], if g in groups then keys else keys + [g], made + [x])
  {
    hide ItemsAt;
    forall place ensures ItemsAt(made + [x], place) == ItemsAt(made, place) + if x.entry.place == place then [x] else [] {
      OneMore(made, x, place);
    }
    if x.entry.place.InGroup? && x.entry.place.group !in groups {
      JoinWithoutDuplicates(keys, [x.entry.place.group]);
    }
  }

  lemma ClusteredStep(clustered: map<nat, seq<NavItem>>, keys: seq<nat>, made: seq<NavItem>, x: NavItem)
    requires Clustered(clustered, keys, made)
    ensures x.entry.place.InGroup? ==> Clustered(clustered, keys, made + [x])
    ensures x.entry.place.InCluster? ==>
              var c := x.entry.place.cluster;
              Clustered(clustered[c := At(clustered, c) + [x]], if c in clustered then keys else keys + [c], made + [x])
  {
    hide ItemsAt, ClusterOrder, EntriesOf;
    forall place ensures ItemsAt(made + [x], place) == ItemsAt(made, place) + if x.entry.place == place then [x] else [] {
      OneMore(made, x, place);
    }
    OneMore(made, x, x.entry.place);
    ClusterOrderStep(EntriesOf(made), x.entry);
  }

  /** The maps `navigation` fills before it nests; `made` lists every item in the order it was made. */
  class Sidebar {
    var groups: map<Option<string>, seq<NavItem>>
    var groupKeys: seq<Option<string>>
    var clustered: map<nat, seq<NavItem>>
    var clusterKeys: seq<nat>
    ghost var made: seq<NavItem>

    ghost predicate Valid()
      reads this
    {
      NoDuplicates(made) && Grouped(groups, groupKeys, made) && Clustered(clustered, clusterKeys, made)
    }

    constructor ()
      ensures Valid() && made == []
    {
      groups, groupKeys, clustered, clusterKeys, made := map[], [], map[], [], [];
    }

    /** `push`. */
    method Push(group: Option<string>, item: NavItem)
      requires Valid() && item !in made && item.entry.place == InGroup(group)
      modifies this
      ensures Valid() && made == old(made) + [item] && clusterKeys == old(clusterKeys) && clustered == old(clustered)
    {
      hide Grouped, Clustered;
      GroupedStep(groups, groupKeys, made, item);
      ClusteredStep(clustered, clusterKeys, made, item);
      JoinWithoutDuplicates(made, [item]);
      var list := At(groups, group);
      if group !in groups {
        groupKeys := groupKeys + [group];
      }
      groups := groups[group := list + [item]];
      made := made + [item];
    }

    method PushMember(cluster: nat, item: NavItem)
      requires Valid() && item !in made && item.entry.place == InCluster(cluster)
      modifies this
      ensures Valid() && made == old(made) + [item]
    {
      hide Grouped, Clustered;
      GroupedStep(groups, groupKeys, made, item);
      ClusteredStep(clustered, clusterKeys, made, item);
      JoinWithoutDuplicates(made, [item]);
      var members := At(clustered, cluster);
      if cluster !in clustered {
        clusterKeys := clusterKeys + [cluster];
      }
      clustered := clustered[cluster := members + [item]];
      made := made + [item];
    }

    method Enter(e: Entry)
      requires Valid()
      modifies this
      ensures Valid() && Grew(old(made), made, [e])
      ensures forall i :: |old(made)| <= i < |made| ==> fresh(made[i]) && made[i].children == None
    {
      hide Grouped, Clustered;
      var item := new NavItem(e, None);
      if e.place.InCluster? {
        PushMember(e.place.cluster, item);
      } else {
        Push(e.place.group, item);
      }
      assert EntriesOf(made) == EntriesOf(old(made)) + [e];
    }
  }

  /** `now` is `before` with items for `es` made after it. */
  ghost predicate Grew(before: seq<NavItem>, now: seq<NavItem>, es: seq<Entry>) {
    && |before| <= |now| && now[..|before|] == before
    && EntriesOf(now) == EntriesOf(before) + es
  }

  lemma NothingGrew(items: seq<NavItem>)
    ensures Grew(items, items, [])
  {
  }

  lemma GrewMore(a: seq<NavItem>, b: seq<NavItem>, c: seq<NavItem>, es: seq<Entry>, more: seq<Entry>)
    requires Grew(a, b, es) && Grew(b, c, more)
    ensures Grew(a, c, es + more)
    ensures |b| <= |c| && forall i :: 0 <= i < |b| ==> c[i] == b[i]
  {
    hide EntriesOf;
    assert EntriesOf(a) + es + more == EntriesOf(a) + (es + more);
    assert c[..|b|][..|a|] == c[..|a|];
    assert forall i :: 0 <= i < |b| ==> c[..|b|][i] == c[i];
  }

  /** The loops over resources, pages, consoles and links: each listed entry becomes an item, in order. */
  method AddEntries(es: seq<Entry>, s: Sidebar)
    requires s.Valid()
    modifies s
    ensures s.Valid() && Grew(old(s.made), s.made, es)
    ensures forall i :: |old(s.made)| <= i < |s.made| ==> fresh(s.made[i]) && s.made[i].children == None
  {
    hide *;
    NothingGrew(s.made);
    assert es[..0] == [];
    for i := 0 to |es|
      invariant s.Valid() && Grew(old(s.made), s.made, es[..i])
      invariant forall j :: |old(s.made)| <= j < |s.made| ==> fresh(s.made[j]) && s.made[j].children == None
    {
      ghost var before := s.made;
      s.Enter(es[i]);
      GrewMore(old(s.made), before, s.made, es[..i], [es[i]]);
      assert es[..i + 1] == es[..i] + [es[i]];
    }
    assert es[..|es|] == es;
  }

  method AddOwn(panel: Panel, s: Sidebar)
    requires s.Valid() && s.made == []
    modifies s
    ensures s.Valid() && EntriesOf(s.made) == OwnEntries(panel)
    ensures forall i :: 0 <= i < |s.made| ==> fresh(s.made[i]) && s.made[i].children == None
  {
    hide *;
    AddEntries(OwnEntries(panel), s);
    FromNothing(s.made, OwnEntries(panel));
  }

  lemma FromNothing(now: seq<NavItem>, es: seq<Entry>)
    requires Grew([], now, es)
    ensures EntriesOf(now) == es
  {
  }
}
