/**
 The second half of `PanelInstance.navigation` of packages/admin/src/PanelInstance.ts: each cluster becomes an entry
 whose children are its members, and every group nests, in place, the items whose parent label is the caption of
 another item of the group.
 */
module Navigation {
  import opened ParentForest
  import opened SidebarEntries
  import opened StableSort
  import opened Wrappers

  // ---------------------------------------------------------------- clusters

  lemma {:induction false} ClustersInOrder(es: seq<Entry>)
    ensures NoDuplicates(ClusterOrder(es))
    ensures forall c :: c in ClusterOrder(es) <==> exists i :: 0 <= i < |es| && es[i].place == InCluster(c)
    ensures |ClusterOrder(es)| <= |es|
  {
    if es != [] {
      var init, last := es[..|es| - 1], es[|es| - 1];
      ClustersInOrder(init);
      assert forall i :: 0 <= i < |init| ==> init[i] == es[i];
      if last.place.InCluster? && last.place.cluster !in ClusterOrder(init) {
        JoinWithoutDuplicates(ClusterOrder(init), [last.place.cluster]);
      }
    }
  }

  lemma SortedEntries(locale: Locale, items: seq<NavItem>)
    ensures EntriesOf(SortedBy(ItemLe(locale), items)) == SortedBy(EntryLe(locale), EntriesOf(items))
  {
    var entry := (x: NavItem) => x.entry;
    SortMapped(entry, ItemLe(locale), EntryLe(locale), items);
    assert forall s: seq<NavItem> {:trigger EntriesOf(s)} :: Mapped(entry, s) == EntriesOf(s);
  }

  /** Items made for groups only leave the clusters as they were. */
  lemma {:induction false} ClustersStay(before: seq<NavItem>, now: seq<NavItem>, c: nat)
    requires |before| <= |now| && now[..|before|] == before
    requires forall i :: |before| <= i < |now| ==> now[i].entry.place.InGroup?
    ensures ItemsAt(now, InCluster(c)) == ItemsAt(before, InCluster(c))
    ensures ClusterOrder(EntriesOf(now)) == ClusterOrder(EntriesOf(before))
  {
    if |now| == |before| {
      assert now == before;
    } else {
      var init := now[..|now| - 1];
      ClustersStay(before, init, c);
      assert EntriesOf(now)[..|now| - 1] == EntriesOf(init);
    }
  }

  /** A cluster's members, sorted. */
  function MembersOf(locale: Locale, items: seq<NavItem>, c: nat): seq<NavItem> {
    SortedBy(ItemLe(locale), ItemsAt(items, InCluster(c)))
  }

  lemma HeadEntry(panel: Panel, locale: Locale, made: seq<NavItem>, members: seq<NavItem>, c: nat)
    requires members == MembersOf(locale, made, c)
    ensures ClusterEntry(panel, locale, EntriesOf(made), c).href == if members != [] then members[0].entry.href else panel.clusters(c).url
  {
    SortedEntries(locale, ItemsAt(made, InCluster(c)));
    EntriesOfItemsAt(made, InCluster(c));
    assert EntriesOf(members) == SortedBy(EntryLe(locale), EntriesAt(EntriesOf(made), InCluster(c)));
  }

  method AddCluster(panel: Panel, locale: Locale, s: Sidebar, c: nat, ghost own: seq<NavItem>)
    requires s.Valid() && c in s.clustered && s.clustered[c] == ItemsAt(own, InCluster(c))
    modifies s
    ensures s.Valid() && s.clusterKeys == old(s.clusterKeys) && s.clustered == old(s.clustered)
    ensures |s.made| == |old(s.made)| + 1 && Grew(old(s.made), s.made, [ClusterEntry(panel, locale, EntriesOf(own), c)])
    ensures var x := s.made[|s.made| - 1]; fresh(x) && x.children == Some(MembersOf(locale, own, c))
    ensures forall i :: 0 <= i < |old(s.made)| ==> s.made[i] == old(s.made)[i]
  {
    hide Grouped, EntriesOf, Grew, ClusterOrder, ItemsAt, NoDuplicates, Clustered;
    var members := SortedBy(ItemLe(locale), s.clustered[c]);
    HeadEntry(panel, locale, own, members, c);
    var cluster := panel.clusters(c);
    var e := Entry(cluster.caption, cluster.slug, if members != [] then members[0].entry.href else cluster.url, cluster.sort,
                   None, cluster.ability, false, InGroup(cluster.group));
    var item := new NavItem(e, Some(members));
    GrewOne(s.made, item);
    s.Push(cluster.group, item);
  }

  method AddClusters(panel: Panel, locale: Locale, s: Sidebar)
    requires s.Valid()
    modifies s
    ensures s.Valid() && |s.made| == |old(s.made)| + |old(s.clusterKeys)|
    ensures Grew(old(s.made), s.made, ClusterEntries(panel, locale, EntriesOf(old(s.made)), old(s.clusterKeys)))
    ensures forall i :: |old(s.made)| <= i < |s.made| ==> fresh(s.made[i])
    ensures HoldMembers(locale, old(s.made), old(s.clusterKeys), s.made)
  {
    hide *;
    var order := s.clusterKeys;
    ghost var own := s.made;
    EachListed(s);
    ghost var es := ClusterEntries(panel, locale, EntriesOf(own), order);
    NothingGrew(own);
    NoClustersYet(panel, locale, own, order);
    NoneHold(locale, own, order);
    for k := 0 to |order|
      invariant s.Valid() && s.clusterKeys == order && s.clustered == old(s.clustered)
      invariant Grew(own, s.made, es[..k]) && |s.made| == |own| + k
      invariant forall i :: |own| <= i < |s.made| ==> fresh(s.made[i])
      invariant HoldMembers(locale, own, order, s.made)
    {
      ghost var before := s.made;
      AddCluster(panel, locale, s, order[k], own);
      GrewByNext(own, before, s.made, es, k);
      OneMoreHolds(locale, own, order, before, s.made);
    }
    TakeAll(es);
  }

  lemma EachListed(s: Sidebar)
    requires s.Valid()
    ensures forall c :: c in s.clusterKeys ==> c in s.clustered && s.clustered[c] == ItemsAt(s.made, InCluster(c))
  {
    assert forall c :: c in s.clusterKeys ==> s.clustered[c] == At(s.clustered, c);
  }

  lemma TakeAll<T>(s: seq<T>)
    ensures s[..|s|] == s
  {
  }

  /** The items made after `own` are the clusters of `order`, each with its members for children. */
  ghost predicate HoldMembers(locale: Locale, own: seq<NavItem>, order: seq<nat>, items: seq<NavItem>)
    reads items
  {
    && |own| <= |items| <= |own| + |order|
    && forall i :: |own| <= i < |items| ==> items[i].children == Some(MembersOf(locale, own, order[i - |own|]))
  }

  lemma NoneHold(locale: Locale, own: seq<NavItem>, order: seq<nat>)
    ensures HoldMembers(locale, own, order, own)
  {
  }

  lemma OneMoreHolds(locale: Locale, own: seq<NavItem>, order: seq<nat>, before: seq<NavItem>, items: seq<NavItem>)
    requires HoldMembers(locale, own, order, before) && |items| == |before| + 1 <= |own| + |order|
    requires forall i :: 0 <= i < |before| ==> items[i] == before[i]
    requires items[|before|].children == Some(MembersOf(locale, own, order[|before| - |own|]))
    ensures HoldMembers(locale, own, order, items)
  {
  }

  lemma NoClustersYet(panel: Panel, locale: Locale, own: seq<NavItem>, order: seq<nat>)
    ensures var es := ClusterEntries(panel, locale, EntriesOf(own), order);
            && |es| == |order| && es[..0] == []
            && forall k :: 0 <= k < |order| ==> es[k] == ClusterEntry(panel, locale, EntriesOf(own), order[k])
  {
  }

  lemma GrewByNext(own: seq<NavItem>, before: seq<NavItem>, now: seq<NavItem>, es: seq<Entry>, k: nat)
    requires k < |es| && Grew(own, before, es[..k]) && Grew(before, now, [es[k]])
    ensures Grew(own, now, es[..k + 1])
  {
    GrewMore(own, before, now, es[..k], [es[k]]);
    assert es[..k + 1] == es[..k] + [es[k]];
  }

  lemma GrewOne(before: seq<NavItem>, x: NavItem)
    ensures Grew(before, before + [x], [x.entry])
  {
  }

  // ---------------------------------------------------------------- nesting one group

  /** `byLabel.get(caption)`: of several items with one caption, the last. */
  function LastCaptioned(items: seq<NavItem>, caption: string): (r: Option<NavItem>)
    ensures r.Some? ==> r.value in items && r.value.entry.caption == caption
    ensures r.None? ==> forall x :: x in items ==> x.entry.caption != caption
  {
    if items == [] then None
    else if items[|items| - 1].entry.caption == caption then Some(items[|items| - 1])
    else LastCaptioned(items[..|items| - 1], caption)
  }

  /** The item `x` is nested under, if any: not itself, and an empty label names none. */
  function NestParent(items: seq<NavItem>, x: NavItem): (r: Option<NavItem>)
    ensures r.Some? ==> r.value in items && r.value != x
  {
    if x.entry.parent.None? || x.entry.parent.value == "" then None
    else
      var p := LastCaptioned(items, x.entry.parent.value);
      if p.Some? && p.value != x then p else None
  }

  /** Those of `some` that go under `p`, in order. */
  function Below(items: seq<NavItem>, some: seq<NavItem>, p: Option<NavItem>): seq<NavItem> {
    if some == [] then []
    else
      var last := some[|some| - 1];
      Below(items, some[..|some| - 1], p) + if NestParent(items, last) == p then [last] else []
  }

  lemma BelowStep(items: seq<NavItem>, n: nat, p: Option<NavItem>)
    requires n < |items|
    ensures Below(items, items[..n + 1], p) == Below(items, items[..n], p) + if NestParent(items, items[n]) == p then [items[n]] else []
  {
    assert items[..n + 1][..n] == items[..n];
  }

  lemma {:induction false} BelowAre(items: seq<NavItem>, some: seq<NavItem>, p: Option<NavItem>)
    ensures forall x :: x in Below(items, some, p) <==> x in some && NestParent(items, x) == p
    ensures forall i :: 0 <= i < |Below(items, some, p)| ==> Below(items, some, p)[i] in some
  {
    if some != [] {
      BelowAre(items, some[..|some| - 1], p);
      assert some == some[..|some| - 1] + [some[|some| - 1]];
    }
  }

  lemma {:induction false} BelowDistinct(items: seq<NavItem>, some: seq<NavItem>, p: Option<NavItem>)
    requires NoDuplicates(some)
    ensures NoDuplicates(Below(items, some, p))
  {
    if some != [] {
      var init, last := some[..|some| - 1], some[|some| - 1];
      LastIsNew(some);
      BelowDistinct(items, init, p);
      BelowAre(items, init, p);
      JoinWithoutDuplicates(Below(items, init, p), if NestParent(items, last) == p then [last] else []);
    }
  }

  method IndexByCaption(items: seq<NavItem>) returns (index: map<string, NavItem>)
    ensures Indexed(items, index)
  {
    index := map[];
    for n := 0 to |items|
      invariant Indexed(items[..n], index)
    {
      assert items[..n + 1][..n] == items[..n];
      index := index[items[n].entry.caption := items[n]];
    }
    assert items[..|items|] == items;
  }

  /** What `x`, born with `before`, ends up with: those at the top level have their children sorted. */
  function Settled(locale: Locale, items: seq<NavItem>, x: NavItem, before: seq<NavItem>): seq<NavItem> {
    var all := before + Below(items, items, Some(x));
    if NestParent(items, x).None? then SortedBy(ItemLe(locale), all) else all
  }

  /** `parent.children` grows in place. */
  method PushChild(parent: NavItem, i: NavItem)
    modifies parent
    ensures ChildrenOf(parent) == old(ChildrenOf(parent)) + [i]
  {
    parent.children := Some(ChildrenOf(parent) + [i]);
  }

  ghost predicate Indexed(items: seq<NavItem>, index: map<string, NavItem>) {
    forall caption :: (if caption in index then Some(index[caption]) else None) == LastCaptioned(items, caption)
  }

  method ParentOf(items: seq<NavItem>, index: map<string, NavItem>, i: NavItem) returns (parent: Option<NavItem>)
    requires Indexed(items, index)
    ensures parent == NestParent(items, i)
  {
    parent := None;
    if i.entry.parent.Some? && i.entry.parent.value != "" && i.entry.parent.value in index {
      parent := Some(index[i.entry.parent.value]);
    }
    if parent == Some(i) {
      parent := None;
    }
  }

  method PushUnderParents(items: seq<NavItem>) returns (top: seq<NavItem>)
    modifies items
    ensures top == Below(items, items, None)
    ensures forall x :: x in items ==> ChildrenOf(x) == old(ChildrenOf(x)) + Below(items, items, Some(x))
  {
    hide *;
    var byCaption := IndexByCaption(items);
    top := [];
    NoneBelow(items);
    for n := 0 to |items|
      invariant top == Below(items, items[..n], None)
      invariant forall x :: x in items ==> ChildrenOf(x) == old(ChildrenOf(x)) + Below(items, items[..n], Some(x))
    {
      var i := items[n];
      var parent := ParentOf(items, byCaption, i);
      BelowSteps(items, n);
      if parent.Some? {
        PushChild(parent.value, i);
        assert forall x :: x in items && x != parent.value ==> Below(items, items[..n + 1], Some(x)) == Below(items, items[..n], Some(x));
      } else {
        top := top + [i];
        assert forall x :: x in items ==> Below(items, items[..n + 1], Some(x)) == Below(items, items[..n], Some(x));
      }
    }
    TakeAll(items);
  }

  lemma NoneBelow(items: seq<NavItem>)
    ensures forall p :: Below(items, items[..0], p) == []
  {
  }

  lemma BelowSteps(items: seq<NavItem>, n: nat)
    requires n < |items|
    ensures var before, now := items[..n], items[..n + 1];
            forall p :: Below(items, now, p) == if NestParent(items, items[n]) == p then Below(items, before, p) + [items[n]] else Below(items, before, p)
    ensures NestParent(items, items[n]).Some? ==> NestParent(items, items[n]).value in items
  {
    forall p ensures Below(items, items[..n + 1], p) ==
                     if NestParent(items, items[n]) == p then Below(items, items[..n], p) + [items[n]] else Below(items, items[..n], p)
    {
      BelowStep(items, n, p);
    }
  }

  method SortChildren(locale: Locale, top: seq<NavItem>)
    requires NoDuplicates(top)
    modifies top
    ensures forall x :: x in top ==> ChildrenOf(x) == SortedBy(ItemLe(locale), old(ChildrenOf(x)))
  {
    hide SortedBy;
    for n := 0 to |top|
      invariant forall i :: 0 <= i < n ==> ChildrenOf(top[i]) == SortedBy(ItemLe(locale), old(ChildrenOf(top[i])))
      invariant forall i :: n <= i < |top| ==> ChildrenOf(top[i]) == old(ChildrenOf(top[i]))
    {
      if top[n].children.Some? {
        top[n].children := Some(SortedBy(ItemLe(locale), top[n].children.value));
      }
    }
  }

  method Nest(locale: Locale, items: seq<NavItem>) returns (top: seq<NavItem>)
    requires NoDuplicates(items)
    modifies items
    ensures top == SortedBy(ItemLe(locale), Below(items, items, None))
    ensures forall x :: x in items ==> ChildrenOf(x) == Settled(locale, items, x, old(ChildrenOf(x)))
  {
    hide *;
    top := PushUnderParents(items);
    label pushed:
    top := SortedBy(ItemLe(locale), top);
    TopIs(locale, items, top);
    SortChildren(locale, top);
    forall x | x in items ensures ChildrenOf(x) == Settled(locale, items, x, old(ChildrenOf(x))) {
      SettledIs(locale, items, x, old(ChildrenOf(x)));
      if x !in top {
        assert ChildrenOf(x) == old@pushed(ChildrenOf(x));
      }
    }
  }

  /** The top level holds exactly the items that nest under nothing. */
  lemma TopIs(locale: Locale, items: seq<NavItem>, top: seq<NavItem>)
    requires NoDuplicates(items) && top == SortedBy(ItemLe(locale), Below(items, items, None))
    ensures NoDuplicates(top) && forall i :: 0 <= i < |top| ==> top[i] in items
    ensures forall x :: x in top <==> x in items && NestParent(items, x) == None
  {
    BelowAre(items, items, None);
    BelowDistinct(items, items, None);
    SortKeepsDistinct(ItemLe(locale), Below(items, items, None));
    SameMembers(ItemLe(locale), Below(items, items, None));
  }

  lemma SettledIs(locale: Locale, items: seq<NavItem>, x: NavItem, before: seq<NavItem>)
    ensures Settled(locale, items, x, before) ==
            if NestParent(items, x) == None then SortedBy(ItemLe(locale), before + Below(items, items, Some(x)))
            else before + Below(items, items, Some(x))
  {
  }

  // ---------------------------------------------------------------- nesting every group

  /** The top level of a group in the order its entries are declared. */
  function TopAsDeclared(made: seq<NavItem>, group: Option<string>): seq<NavItem> {
    Below(ItemsAt(made, InGroup(group)), ItemsAt(made, InGroup(group)), None)
  }

  function TopOf(locale: Locale, made: seq<NavItem>, group: Option<string>): seq<NavItem> {
    SortedBy(ItemLe(locale), TopAsDeclared(made, group))
  }

  /** Members of a cluster keep what they were born with; the others settle in their group. */
  function Final(locale: Locale, made: seq<NavItem>, x: NavItem, before: seq<NavItem>): seq<NavItem> {
    if x.entry.place.InGroup? then Settled(locale, ItemsAt(made, x.entry.place), x, before) else before
  }

  lemma GroupItems(groups: map<Option<string>, seq<NavItem>>, keys: seq<Option<string>>, made: seq<NavItem>, n: nat)
    requires Grouped(groups, keys, made) && NoDuplicates(made) && n < |keys|
    ensures keys[n] in groups && groups[keys[n]] == ItemsAt(made, InGroup(keys[n])) && NoDuplicates(groups[keys[n]])
    ensures forall x :: x in groups[keys[n]] <==> x in made && x.entry.place == InGroup(keys[n])
    ensures forall i :: 0 <= i < |groups[keys[n]]| ==> groups[keys[n]][i] in made
    ensures keys[n] !in keys[..n] && keys[..n + 1] == keys[..n] + [keys[n]]
  {
    var g := keys[n];
    GroupAt(groups, keys, made, n);
    ItemsAtAre(made, InGroup(g));
    ItemsAtDistinct(made, InGroup(g));
    hide *;
  }

  lemma GroupAt(groups: map<Option<string>, seq<NavItem>>, keys: seq<Option<string>>, made: seq<NavItem>, n: nat)
    requires Grouped(groups, keys, made) && n < |keys|
    ensures keys[n] in groups && groups[keys[n]] == ItemsAt(made, InGroup(keys[n]))
    ensures keys[n] !in keys[..n] && keys[..n + 1] == keys[..n] + [keys[n]]
  {
    hide ItemsAt;
    assert groups[keys[n]] == At(groups, keys[n]);
  }

  lemma EveryGroupHasKey(groups: map<Option<string>, seq<NavItem>>, keys: seq<Option<string>>, made: seq<NavItem>)
    requires Grouped(groups, keys, made)
    ensures forall x :: x in made && x.entry.place.InGroup? ==> x.entry.place.group in keys
  {
    forall x | x in made && x.entry.place.InGroup? ensures x.entry.place.group in keys {
      ItemsAtAre(made, x.entry.place);
      assert x in At(groups, x.entry.place.group);
    }
  }

  /** The items of the groups in `done` have settled; the others are as they were in `born`. */
  ghost predicate SettledIn(locale: Locale, made: seq<NavItem>, born: map<NavItem, seq<NavItem>>, done: seq<Option<string>>)
    reads made
  {
    forall x :: x in made ==>
                  x in born
                  && ChildrenOf(x) == if x.entry.place.InGroup? && x.entry.place.group in done then Final(locale, made, x, born[x]) else born[x]
  }

  method NestGroup(locale: Locale, ghost made: seq<NavItem>, items: seq<NavItem>, g: Option<string>, ghost born: map<NavItem, seq<NavItem>>, ghost done: seq<Option<string>>)
    returns (group: NavGroup)
    requires NoDuplicates(items) && items == ItemsAt(made, InGroup(g)) && g !in done
    requires forall x :: x in items <==> x in made && x.entry.place == InGroup(g)
    requires SettledIn(locale, made, born, done)
    modifies items
    ensures group == NavGroup(g, TopOf(locale, made, g))
    ensures SettledIn(locale, made, born, done + [g])
  {
    hide Settled, ItemsAt, Below, NoDuplicates, SortedBy;
    var top := Nest(locale, items);
    group := NavGroup(g, top);
  }

  method NestAll(locale: Locale, s: Sidebar, ghost born: map<NavItem, seq<NavItem>>) returns (result: seq<NavGroup>)
    requires s.Valid() && SettledIn(locale, s.made, born, [])
    modifies s.made
    ensures |result| == |s.groupKeys|
    ensures forall i :: 0 <= i < |result| ==> result[i] == NavGroup(s.groupKeys[i], TopOf(locale, s.made, s.groupKeys[i]))
    ensures SettledIn(locale, s.made, born, s.groupKeys)
  {
    hide SettledIn, Grouped, Clustered, NoDuplicates, TopOf, ItemsAt;
    result := [];
    ghost var keys := s.groupKeys;
    assert keys[..0] == [];
    for n := 0 to |s.groupKeys|
      invariant |result| == n && forall i :: 0 <= i < n ==> result[i] == NavGroup(keys[i], TopOf(locale, s.made, keys[i]))
      invariant SettledIn(locale, s.made, born, keys[..n])
    {
      var g := s.groupKeys[n];
      GroupItems(s.groups, s.groupKeys, s.made, n);
      var group := NestGroup(locale, s.made, s.groups[g], g, born, keys[..n]);
      result := result + [group];
    }
    TakeAll(keys);
  }

  // ---------------------------------------------------------------- the whole sidebar

  /** The cluster of its `k`-th first member; clusters are made last, in that order. */
  ghost predicate IsHead(made: seq<NavItem>, k: nat, c: nat, x: NavItem) {
    var order := ClusterOrder(EntriesOf(made));
    |order| <= |made| && k < |order| && order[k] == c && made[|made| - |order| + k] == x
  }

  ghost predicate Heads(made: seq<NavItem>, c: nat, x: NavItem) {
    exists k: nat :: IsHead(made, k, c, x)
  }

  /** Items are distinct, and those made last are the clusters. */
  ghost predicate WellMade(made: seq<NavItem>) {
    var order := ClusterOrder(EntriesOf(made));
    && NoDuplicates(made) && |order| <= |made|
    && forall i :: |made| - |order| <= i < |made| ==> made[i].entry.place.InGroup?
  }

  /** What `x` hangs from: its cluster, or the item of its group its parent label names. */
  ghost function ParentIn(made: seq<NavItem>, x: NavItem): Option<NavItem> {
    match x.entry.place
    case InGroup(g) => NestParent(ItemsAt(made, InGroup(g)), x)
    case InCluster(c) => if exists h :: h in made && Heads(made, c, h) then (var h :| h in made && Heads(made, c, h); Some(h)) else None
  }

  ghost function ParentsIn(made: seq<NavItem>): map<NavItem, Option<NavItem>> {
    map x | x in made :: ParentIn(made, x)
  }

  /** The children `x` is made with. */
  ghost function Born(locale: Locale, made: seq<NavItem>, x: NavItem): seq<NavItem> {
    if exists c: nat :: Heads(made, c, x) then (var c: nat :| Heads(made, c, x); MembersOf(locale, made, c)) else []
  }

  ghost function KidsIn(locale: Locale, made: seq<NavItem>, roots: seq<NavItem>): Kids<NavItem> {
    map p | p in {None} + set x | x in made :: Some(x) ::
      if p.None? then roots else Final(locale, made, p.value, Born(locale, made, p.value))
  }

  lemma HeadsUnique(made: seq<NavItem>, c: nat, x: NavItem, d: nat, y: NavItem)
    requires WellMade(made) && Heads(made, c, x) && Heads(made, d, y)
    ensures c == d <==> x == y
    ensures x in made && x.entry.place.InGroup?
  {
    ClustersInOrder(EntriesOf(made));
    var k: nat :| IsHead(made, k, c, x);
    var l: nat :| IsHead(made, l, d, y);
  }

  lemma HeadExists(made: seq<NavItem>, x: NavItem) returns (h: NavItem)
    requires WellMade(made) && x in made && x.entry.place.InCluster?
    ensures Heads(made, x.entry.place.cluster, h) && h in made && h.entry.place.InGroup?
  {
    var es, c := EntriesOf(made), x.entry.place.cluster;
    ClustersInOrder(es);
    var i :| 0 <= i < |made| && made[i] == x;
    assert es[i].place == InCluster(c);
    var order := ClusterOrder(es);
    var k :| 0 <= k < |order| && order[k] == c;
    h := made[|made| - |order| + k];
    assert IsHead(made, k, c, h);
  }

  /** A member hangs from its cluster. */
  lemma MemberParent(made: seq<NavItem>, x: NavItem, h: NavItem)
    requires WellMade(made) && x in made && x.entry.place.InCluster?
    ensures ParentIn(made, x) == Some(h) <==> Heads(made, x.entry.place.cluster, h)
    ensures ParentIn(made, x).Some? && ParentIn(made, x).value in made
  {
    var c := x.entry.place.cluster;
    var some := HeadExists(made, x);
    var p := ParentIn(made, x).value;
    HeadsUnique(made, c, p, c, some);
    if Heads(made, c, h) {
      HeadsUnique(made, c, p, c, h);
    }
  }

  lemma BornOf(locale: Locale, made: seq<NavItem>, x: NavItem, c: nat)
    requires WellMade(made) && Heads(made, c, x)
    ensures Born(locale, made, x) == MembersOf(locale, made, c) && x.entry.place.InGroup?
  {
    var d: nat :| Heads(made, d, x) && Born(locale, made, x) == MembersOf(locale, made, d);
    HeadsUnique(made, c, x, d, x);
  }

  lemma MembersAre(locale: Locale, made: seq<NavItem>, c: nat, k: NavItem)
    requires NoDuplicates(made)
    ensures k in MembersOf(locale, made, c) <==> k in made && k.entry.place == InCluster(c)
    ensures NoDuplicates(MembersOf(locale, made, c))
  {
    SameMembers(ItemLe(locale), ItemsAt(made, InCluster(c)));
    ItemsAtAre(made, InCluster(c));
    ItemsAtDistinct(made, InCluster(c));
    SortKeepsDistinct(ItemLe(locale), ItemsAt(made, InCluster(c)));
  }

  lemma BornAre(locale: Locale, made: seq<NavItem>, x: NavItem, k: NavItem)
    requires WellMade(made) && x in made
    ensures k in Born(locale, made, x) <==> k in made && k.entry.place.InCluster? && ParentIn(made, k) == Some(x)
    ensures x.entry.place.InCluster? ==> Born(locale, made, x) == []
    ensures NoDuplicates(Born(locale, made, x))
  {
    hide Heads, ParentIn, MembersOf;
    if k in made && k.entry.place.InCluster? {
      MemberParent(made, k, x);
    }
    if c: nat :| Heads(made, c, x) {
      BornOf(locale, made, x, c);
      MembersAre(locale, made, c, k);
      if k in made && k.entry.place.InCluster? && Heads(made, k.entry.place.cluster, x) {
        HeadsUnique(made, c, x, k.entry.place.cluster, x);
      }
    }
  }

  lemma FinalAre(locale: Locale, made: seq<NavItem>, x: NavItem, k: NavItem)
    requires WellMade(made) && x in made
    ensures k in Final(locale, made, x, Born(locale, made, x)) <==> k in made && ParentIn(made, k) == Some(x)
    ensures NoDuplicates(Final(locale, made, x, Born(locale, made, x)))
  {
    hide Born;
    BornAre(locale, made, x, k);
    var born := Born(locale, made, x);
    ParentInGroup(made, k, x);
    if x.entry.place.InGroup? {
      var items := ItemsAt(made, x.entry.place);
      ItemsAtAre(made, x.entry.place);
      ItemsAtDistinct(made, x.entry.place);
      BelowAre(items, items, Some(x));
      BelowDistinct(items, items, Some(x));
      var below := Below(items, items, Some(x));
      Disjoint(locale, made, x, below);
      SortKeepsDistinct(ItemLe(locale), born + below);
      SameMembers(ItemLe(locale), born + below);
      assert k in born + below <==> k in born || k in below;
    }
  }

  /** An item that hangs from an item of a group, and is no member of a cluster, is of that group. */
  lemma ParentInGroup(made: seq<NavItem>, k: NavItem, x: NavItem)
    requires WellMade(made)
    ensures k in made && ParentIn(made, k) == Some(x) ==> x in made && x.entry.place.InGroup?
    ensures k in made && k.entry.place.InGroup? && ParentIn(made, k) == Some(x) ==> x.entry.place == k.entry.place
  {
    ItemsAtAre(made, k.entry.place);
    if k in made && k.entry.place.InCluster? && ParentIn(made, k) == Some(x) {
      MemberParent(made, k, x);
      HeadsUnique(made, k.entry.place.cluster, x, k.entry.place.cluster, x);
    }
  }

  lemma Disjoint(locale: Locale, made: seq<NavItem>, x: NavItem, below: seq<NavItem>)
    requires WellMade(made) && x in made && NoDuplicates(below)
    requires forall i :: 0 <= i < |below| ==> below[i].entry.place.InGroup?
    ensures NoDuplicates(Born(locale, made, x) + below)
  {
    hide Born;
    var born := Born(locale, made, x);
    BornAre(locale, made, x, x);
    forall i | 0 <= i < |born| ensures born[i] !in below {
      BornAre(locale, made, x, born[i]);
    }
    JoinWithoutDuplicates(born, below);
  }

  /** The children lists and the top levels list every item under its parent, once. */
  lemma EveryItemListed(locale: Locale, made: seq<NavItem>, roots: seq<NavItem>)
    requires WellMade(made) && NoDuplicates(roots)
    requires forall k :: k in roots <==> k in made && ParentIn(made, k) == None
    ensures Listing(ParentsIn(made), KidsIn(locale, made, roots))
  {
    hide Final, Born, ParentIn, WellMade;
    var par, kids := ParentsIn(made), KidsIn(locale, made, roots);
    forall k | k in par && par[k].Some? ensures par[k].value in par {
      ParentInGroup(made, k, par[k].value);
    }
    forall p | p in kids ensures NoDuplicates(kids[p]) {
      if p.Some? {
        FinalAre(locale, made, p.value, p.value);
      }
    }
    forall p, k | p in kids && k in kids[p] ensures k in par && par[k] == p {
      if p.Some? {
        FinalAre(locale, made, p.value, k);
      }
    }
    forall k | k in par ensures k in Listed(kids, par[k]) {
      if par[k].Some? {
        ParentInGroup(made, k, par[k].value);
        FinalAre(locale, made, par[k].value, k);
        assert par[k] in kids;
      }
    }
  }

  /** The top levels, group after group. */
  function RootsOf(groups: seq<NavGroup>): seq<NavItem> {
    if groups == [] then [] else RootsOf(groups[..|groups| - 1]) + groups[|groups| - 1].items
  }

  /** Each group once, with its top level. */
  ghost predicate TopLevels(locale: Locale, made: seq<NavItem>, groups: seq<NavGroup>) {
    && (forall i :: 0 <= i < |groups| ==> groups[i].items == TopOf(locale, made, groups[i].group))
    && forall i, j :: 0 <= i < j < |groups| ==> groups[i].group != groups[j].group
  }

  lemma TopLevelIs(locale: Locale, made: seq<NavItem>, g: Option<string>)
    requires WellMade(made)
    ensures var top := TopOf(locale, made, g);
            && NoDuplicates(top)
            && forall i :: 0 <= i < |top| ==> top[i].entry.place == InGroup(g)
  {
    var items := ItemsAt(made, InGroup(g));
    ItemsAtAre(made, InGroup(g));
    ItemsAtDistinct(made, InGroup(g));
    var top := TopOf(locale, made, g);
    TopIs(locale, items, top);
    forall i | 0 <= i < |top| ensures top[i].entry.place == InGroup(g) {
      var j :| 0 <= j < |items| && items[j] == top[i];
    }
  }

  lemma OnTopLevelIff(locale: Locale, made: seq<NavItem>, g: Option<string>, k: NavItem)
    requires WellMade(made)
    ensures k in TopOf(locale, made, g) <==> k in made && k.entry.place == InGroup(g) && ParentIn(made, k) == None
  {
    var items := ItemsAt(made, InGroup(g));
    ItemsAtAre(made, InGroup(g));
    ItemsAtDistinct(made, InGroup(g));
    TopIs(locale, items, TopOf(locale, made, g));
  }

  lemma {:induction false} IsRootIff(locale: Locale, made: seq<NavItem>, groups: seq<NavGroup>, k: NavItem)
    requires WellMade(made) && TopLevels(locale, made, groups)
    ensures k in RootsOf(groups) <==>
            k in made && ParentIn(made, k) == None && exists i :: 0 <= i < |groups| && k.entry.place == InGroup(groups[i].group)
  {
    hide WellMade, ParentIn, TopOf;
    if groups != [] {
      var init, last := groups[..|groups| - 1], groups[|groups| - 1];
      IsRootIff(locale, made, init, k);
      OnTopLevelIff(locale, made, last.group, k);
      assert groups == init + [last];
    }
  }

  lemma {:induction false} RootsAre(locale: Locale, made: seq<NavItem>, groups: seq<NavGroup>)
    requires WellMade(made) && TopLevels(locale, made, groups)
    ensures NoDuplicates(RootsOf(groups))
    ensures forall i :: 0 <= i < |RootsOf(groups)| ==>
                          exists j :: 0 <= j < |groups| && RootsOf(groups)[i].entry.place == InGroup(groups[j].group)
  {
    hide WellMade, ParentIn, TopOf;
    if groups != [] {
      var init, last := groups[..|groups| - 1], groups[|groups| - 1];
      RootsAre(locale, made, init);
      TopLevelIs(locale, made, last.group);
      assert forall i :: 0 <= i < |init| ==> init[i] == groups[i];
      var before := RootsOf(init);
      forall i | 0 <= i < |before| ensures before[i] !in last.items {
        var j :| 0 <= j < |init| && before[i].entry.place == InGroup(init[j].group);
      }
      JoinWithoutDuplicates(before, last.items);
      forall i | 0 <= i < |RootsOf(groups)|
        ensures exists j :: 0 <= j < |groups| && RootsOf(groups)[i].entry.place == InGroup(groups[j].group)
      {
        if i < |before| {
          var j :| 0 <= j < |init| && before[i].entry.place == InGroup(init[j].group);
          assert RootsOf(groups)[i].entry.place == InGroup(groups[j].group);
        } else {
          assert RootsOf(groups)[i] == last.items[i - |before|];
        }
      }
    }
  }

  lemma GroupsDistinct(r: seq<NavGroup>, groups: seq<NavGroup>)
    requires NoDuplicates(r) && forall i :: 0 <= i < |r| ==> r[i] in groups
    requires forall i, j :: 0 <= i < j < |groups| ==> groups[i].group != groups[j].group
    ensures forall i, j :: 0 <= i < j < |r| ==> r[i].group != r[j].group
  {
    forall i, j | 0 <= i < j < |r| ensures r[i].group != r[j].group {
      var a :| 0 <= a < |groups| && groups[a] == r[i];
      var b :| 0 <= b < |groups| && groups[b] == r[j];
      assert r[i] != r[j];
    }
  }

  lemma GroupsOnce(groups: seq<NavGroup>)
    requires forall i, j :: 0 <= i < j < |groups| ==> groups[i].group != groups[j].group
    ensures NoDuplicates(groups)
  {
  }

  /** Sorting the groups keeps each of them once. */
  lemma TopLevelsSorted(locale: Locale, made: seq<NavItem>, groups: seq<NavGroup>)
    requires TopLevels(locale, made, groups)
    ensures TopLevels(locale, made, SortedBy(GroupLe(locale), groups))
    ensures forall i :: 0 <= i < |groups| ==>
                          exists j :: 0 <= j < |groups| && SortedBy(GroupLe(locale), groups)[j].group == groups[i].group
  {
    hide TopOf, SortedBy, NoDuplicates;
    var r := SortedBy(GroupLe(locale), groups);
    GroupsOnce(groups);
    SortKeepsDistinct(GroupLe(locale), groups);
    SortedFrom(GroupLe(locale), groups);
    GroupsDistinct(r, groups);
    forall i | 0 <= i < |groups| ensures exists j :: 0 <= j < |groups| && r[j].group == groups[i].group {
      var j :| 0 <= j < |r| && r[j] == groups[i];
      assert r[j].group == groups[i].group;
    }
  }

  lemma NoHead(made: seq<NavItem>, i: nat, c: nat)
    requires WellMade(made) && i < |made| - |ClusterOrder(EntriesOf(made))|
    ensures !Heads(made, c, made[i])
  {
    forall k: nat ensures !IsHead(made, k, c, made[i]) {
    }
  }

  /** Right after they are made, items have the children they are born with. */
  lemma BornNow(locale: Locale, own: seq<NavItem>, made: seq<NavItem>, x: NavItem)
    requires WellMade(made) && |own| + |ClusterOrder(EntriesOf(made))| == |made| && own == made[..|own|]
    requires forall i :: 0 <= i < |own| ==> made[i].children == None
    requires HoldMembers(locale, own, ClusterOrder(EntriesOf(made)), made)
    requires x in made
    ensures ChildrenOf(x) == Born(locale, made, x)
  {
    hide MembersOf, ClusterOrder, EntriesOf;
    var order := ClusterOrder(EntriesOf(made));
    var i :| 0 <= i < |made| && made[i] == x;
    if i < |own| {
      forall c: nat ensures !Heads(made, c, x) {
        NoHead(made, i, c);
      }
    } else {
      var c := order[i - |own|];
      assert IsHead(made, i - |own|, c, x);
      assert Heads(made, c, x);
      BornOf(locale, made, x, c);
      MembersStay(locale, own, made, c);
    }
  }

  lemma MembersStay(locale: Locale, own: seq<NavItem>, made: seq<NavItem>, c: nat)
    requires WellMade(made) && |own| + |ClusterOrder(EntriesOf(made))| == |made| && own == made[..|own|]
    ensures MembersOf(locale, own, c) == MembersOf(locale, made, c)
  {
    ClustersStay(own, made, c);
  }

  // ---------------------------------------------------------------- navigation()

  /** The sidebar as it stands: who is listed under whom. */
  ghost function ChildLists(made: seq<NavItem>, result: seq<NavGroup>): Kids<NavItem>
    reads made
  {
    map p | p in {None} + set x | x in made :: Some(x) :: if p.None? then RootsOf(result) else ChildrenOf(p.value)
  }

  /** `f` is a forest over these lists that holds every item once, except those whose chain of parents enters a cycle. */
  ghost predicate HoldsEachOnce(par: map<NavItem, Option<NavItem>>, kids: Kids<NavItem>, f: Forest<NavItem>) {
    && Grown(kids, f, None)
    && NoDuplicates(Order(f))
    && (forall i :: 0 <= i < |Order(f)| ==> Order(f)[i] in par)
    && forall k :: k in par ==> (k in Order(f) <==> !EntersCycle(par, Some(k)))
  }

  lemma EachOnce(par: map<NavItem, Option<NavItem>>, kids: Kids<NavItem>) returns (f: Forest<NavItem>)
    requires Listing(par, kids)
    ensures HoldsEachOnce(par, kids, f)
  {
    hide *;
    f := ForestExists(par, kids);
    NoneTwice(par, kids, f);
    forall i | 0 <= i < |Order(f)| ensures Order(f)[i] in par {
      HeldUnlessCycle(par, kids, f, Order(f)[i]);
    }
    forall k | k in par ensures k in Order(f) <==> !EntersCycle(par, Some(k)) {
      HeldUnlessCycle(par, kids, f, k);
    }
    Collected(par, kids, f);
  }

  lemma NoneTwice(par: map<NavItem, Option<NavItem>>, kids: Kids<NavItem>, f: Forest<NavItem>)
    requires Listing(par, kids) && Grown(kids, f, None)
    ensures NoDuplicates(Order(f))
  {
    ListedUnder(par, kids, None);
    assert Up(par, None, 0) == None;
    HeldOnce(par, kids, f, None);
  }

  lemma HeldUnlessCycle(par: map<NavItem, Option<NavItem>>, kids: Kids<NavItem>, f: Forest<NavItem>, k: NavItem)
    requires Listing(par, kids) && Grown(kids, f, None)
    ensures k in Order(f) <==> k in par && !EntersCycle(par, Some(k))
  {
    HeldIffEnds(par, kids, f, k);
    hide EntersCycle, Ends, Order, Grown;
    if k in par {
      EndsOrCycles(par, k);
    }
  }

  lemma Collected(par: map<NavItem, Option<NavItem>>, kids: Kids<NavItem>, f: Forest<NavItem>)
    requires Grown(kids, f, None) && NoDuplicates(Order(f))
    requires forall i :: 0 <= i < |Order(f)| ==> Order(f)[i] in par
    requires forall k :: k in par ==> (k in Order(f) <==> !EntersCycle(par, Some(k)))
    ensures HoldsEachOnce(par, kids, f)
  {
    hide EntersCycle, Order, Grown, NoDuplicates;
  }

  lemma MadeWell(panel: Panel, locale: Locale, own: seq<NavItem>, made: seq<NavItem>, order: seq<nat>)
    requires NoDuplicates(made) && EntriesOf(own) == OwnEntries(panel) && order == ClusterOrder(EntriesOf(own))
    requires Grew(own, made, ClusterEntries(panel, locale, EntriesOf(own), order))
    ensures WellMade(made) && |own| + |order| == |made| && own == made[..|own|] && ClusterOrder(EntriesOf(made)) == order
    ensures EntriesOf(made) == Declared(panel, locale)
  {
    hide ClusterOrder;
    var es := ClusterEntries(panel, locale, EntriesOf(own), order);
    assert |EntriesOf(made)| == |made| && |EntriesOf(own)| == |own|;
    forall i | |own| <= i < |made| ensures made[i].entry.place.InGroup? {
      assert EntriesOf(made)[i] == es[i - |own|];
    }
    ClustersStay(own, made, 0);
  }

  /** What `navigation` starts nesting from. */
  method Gather(panel: Panel, locale: Locale) returns (s: Sidebar, ghost born: map<NavItem, seq<NavItem>>)
    ensures fresh(s) && s.Valid() && WellMade(s.made) && EntriesOf(s.made) == Declared(panel, locale)
    ensures forall i :: 0 <= i < |s.made| ==> fresh(s.made[i])
    ensures born == map x | x in s.made :: Born(locale, s.made, x)
    ensures SettledIn(locale, s.made, born, [])
  {
    hide *;
    s := new Sidebar();
    AddOwn(panel, s);
    ghost var own, order := s.made, s.clusterKeys;
    KeysAre(s);
    AddClusters(panel, locale, s);
    Distinct(s);
    OldStay(own, s.made, ClusterEntries(panel, locale, EntriesOf(own), order));
    MadeWell(panel, locale, own, s.made, order);
    born := map x | x in s.made :: Born(locale, s.made, x);
    forall x | x in s.made ensures ChildrenOf(x) == Born(locale, s.made, x) {
      BornNow(locale, own, s.made, x);
    }
    Unsettled(locale, s.made, born);
  }

  lemma KeysAre(s: Sidebar)
    requires s.Valid()
    ensures s.clusterKeys == ClusterOrder(EntriesOf(s.made))
  {
  }

  lemma Distinct(s: Sidebar)
    requires s.Valid()
    ensures NoDuplicates(s.made)
  {
  }

  lemma OldStay(own: seq<NavItem>, made: seq<NavItem>, es: seq<Entry>)
    requires Grew(own, made, es)
    ensures |own| <= |made| && forall i :: 0 <= i < |own| ==> made[i] == own[i]
  {
  }

  lemma Unsettled(locale: Locale, made: seq<NavItem>, born: map<NavItem, seq<NavItem>>)
    requires forall x :: x in made ==> x in born && ChildrenOf(x) == born[x]
    ensures SettledIn(locale, made, born, [])
  {
  }

  /** Every item has its final children. */
  lemma AllSettled(locale: Locale, s: Sidebar, born: map<NavItem, seq<NavItem>>, result: seq<NavGroup>)
    requires s.Valid() && SettledIn(locale, s.made, born, s.groupKeys)
    requires born == map x | x in s.made :: Born(locale, s.made, x)
    ensures ChildLists(s.made, result) == KidsIn(locale, s.made, RootsOf(result))
  {
    hide Born, Settled, RootsOf, ItemsAt, Clustered;
    EveryGroupHasKey(s.groups, s.groupKeys, s.made);
  }

  lemma TopLevelsOnce(locale: Locale, s: Sidebar, tops: seq<NavGroup>)
    requires s.Valid() && WellMade(s.made) && |tops| == |s.groupKeys|
    requires forall i :: 0 <= i < |tops| ==> tops[i] == NavGroup(s.groupKeys[i], TopOf(locale, s.made, s.groupKeys[i]))
    ensures var result := SortedBy(GroupLe(locale), tops);
            TopLevels(locale, s.made, result) && NoDuplicates(RootsOf(result))
  {
    hide TopOf, RootsOf, Clustered, WellMade, SortedBy;
    TopLevelsSorted(locale, s.made, tops);
    RootsAre(locale, s.made, SortedBy(GroupLe(locale), tops));
  }

  lemma RootIff(locale: Locale, s: Sidebar, tops: seq<NavGroup>, k: NavItem)
    requires s.Valid() && WellMade(s.made) && |tops| == |s.groupKeys|
    requires forall i :: 0 <= i < |tops| ==> tops[i] == NavGroup(s.groupKeys[i], TopOf(locale, s.made, s.groupKeys[i]))
    ensures k in RootsOf(SortedBy(GroupLe(locale), tops)) <==> k in s.made && ParentIn(s.made, k) == None
  {
    hide TopOf, RootsOf, ItemsAt, Clustered, WellMade, SortedBy, ParentIn;
    EveryGroupHasKey(s.groups, s.groupKeys, s.made);
    TopLevelsSorted(locale, s.made, tops);
    IsRootIff(locale, s.made, SortedBy(GroupLe(locale), tops), k);
    if k in s.made && ParentIn(s.made, k) == None {
      if k.entry.place.InCluster? {
        MemberParent(s.made, k, k);
      } else {
        var i :| 0 <= i < |tops| && s.groupKeys[i] == k.entry.place.group;
        assert tops[i].group == k.entry.place.group;
      }
    }
  }

  /** Groups in order, top levels in order, and the children of what is on a top level in order. */
  ghost predicate InSidebarOrder(locale: Locale, made: seq<NavItem>, result: seq<NavGroup>)
    reads made
  {
    && InOrder(GroupLe(locale), result)
    && (forall i :: 0 <= i < |result| ==> InOrder(ItemLe(locale), result[i].items))
    && forall x :: x in made && ParentIn(made, x) == None ==> InOrder(ItemLe(locale), ChildrenOf(x))
  }

  /** The children of an item: the members of its cluster, then the entries with its label, these in declared order. */
  ghost function ChildrenAsDeclared(locale: Locale, made: seq<NavItem>, x: NavItem): seq<NavItem> {
    Born(locale, made, x) + Below(ItemsAt(made, x.entry.place), ItemsAt(made, x.entry.place), Some(x))
  }

  /** On a top level, and below it, entries that tie stand in that order. */
  ghost predicate TiesAsDeclared(locale: Locale, made: seq<NavItem>, result: seq<NavGroup>)
    reads made
  {
    && (forall i, y :: 0 <= i < |result| && y in made ==>
          Ties(ItemLe(locale), result[i].items, y) == Ties(ItemLe(locale), TopAsDeclared(made, result[i].group), y))
    && forall x, y :: x in made && ParentIn(made, x) == None && y in made ==>
         Ties(ItemLe(locale), ChildrenOf(x), y) == Ties(ItemLe(locale), ChildrenAsDeclared(locale, made, x), y)
  }

  lemma SidebarTies(locale: Locale, s: Sidebar, result: seq<NavGroup>, born: map<NavItem, seq<NavItem>>)
    requires Collation(locale) && s.Valid() && WellMade(s.made)
    requires SettledIn(locale, s.made, born, s.groupKeys) && born == map x | x in s.made :: Born(locale, s.made, x)
    requires TopLevels(locale, s.made, result)
    ensures TiesAsDeclared(locale, s.made, result)
  {
    hide SortedBy, ItemsAt, Below, Clustered, NestParent, InOrder, Born, Ties;
    forall i, y | 0 <= i < |result| && y in s.made
      ensures Ties(ItemLe(locale), result[i].items, y) == Ties(ItemLe(locale), TopAsDeclared(s.made, result[i].group), y)
    {
      ItemsTieInOrder(locale, TopAsDeclared(s.made, result[i].group), y);
    }
    EveryGroupHasKey(s.groups, s.groupKeys, s.made);
    forall x, y | x in s.made && ParentIn(s.made, x) == None && y in s.made
      ensures Ties(ItemLe(locale), ChildrenOf(x), y) == Ties(ItemLe(locale), ChildrenAsDeclared(locale, s.made, x), y)
    {
      if x.entry.place.InCluster? {
        MemberParent(s.made, x, x);
      } else {
        ItemsTieInOrder(locale, ChildrenAsDeclared(locale, s.made, x), y);
      }
    }
  }

  lemma SidebarSorted(locale: Locale, s: Sidebar, tops: seq<NavGroup>, result: seq<NavGroup>, born: map<NavItem, seq<NavItem>>)
    requires Collation(locale) && s.Valid() && WellMade(s.made)
    requires SettledIn(locale, s.made, born, s.groupKeys)
    requires result == SortedBy(GroupLe(locale), tops) && TopLevels(locale, s.made, result)
    ensures InSidebarOrder(locale, s.made, result)
  {
    hide SortedBy, ItemsAt, Below, Clustered, NestParent, InOrder;
    GroupsInOrder(locale, tops);
    forall i | 0 <= i < |result| ensures InOrder(ItemLe(locale), result[i].items) {
      var items := ItemsAt(s.made, InGroup(result[i].group));
      ItemsInOrder(locale, Below(items, items, None));
    }
    EveryGroupHasKey(s.groups, s.groupKeys, s.made);
    forall x | x in s.made && ParentIn(s.made, x) == None ensures InOrder(ItemLe(locale), ChildrenOf(x)) {
      if x.entry.place.InCluster? {
        MemberParent(s.made, x, x);
      } else {
        var items := ItemsAt(s.made, x.entry.place);
        ItemsInOrder(locale, born[x] + Below(items, items, Some(x)));
      }
    }
  }

  /** No group twice, and in each only items that are declared for it. */
  ghost predicate InTheirGroups(groups: seq<NavGroup>) {
    && (forall i, j :: 0 <= i < j < |groups| ==> groups[i].group != groups[j].group)
    && forall i, j :: 0 <= i < |groups| && 0 <= j < |groups[i].items| ==> groups[i].items[j].entry.place == InGroup(groups[i].group)
  }

  lemma AreGrouped(locale: Locale, made: seq<NavItem>, groups: seq<NavGroup>)
    requires WellMade(made) && TopLevels(locale, made, groups)
    ensures InTheirGroups(groups)
  {
    hide TopOf, WellMade;
    forall i, j | 0 <= i < |groups| && 0 <= j < |groups[i].items| ensures groups[i].items[j].entry.place == InGroup(groups[i].group) {
      TopLevelIs(locale, made, groups[i].group);
    }
  }

  /**
   One object for each declared entry; together they form a forest that holds each of them exactly once, except
   precisely those whose chain of parents enters a cycle.
   */
  method Navigation(panel: Panel, locale: Locale) returns (result: seq<NavGroup>, ghost made: seq<NavItem>, ghost f: Forest<NavItem>)
    ensures EntriesOf(made) == Declared(panel, locale) && NoDuplicates(made)
    ensures forall i :: 0 <= i < |made| ==> fresh(made[i])
    ensures Listing(ParentsIn(made), ChildLists(made, result))
    ensures HoldsEachOnce(ParentsIn(made), ChildLists(made, result), f)
    ensures InTheirGroups(result)
    ensures Collation(locale) ==> InSidebarOrder(locale, made, result) && TiesAsDeclared(locale, made, result)
  {
    hide *;
    ghost var born;
    var s: Sidebar;
    s, born := Gather(panel, locale);
    made := s.made;
    var tops := NestAll(locale, s, born);
    result := SortedBy(GroupLe(locale), tops);
    AllSettled(locale, s, born, result);
    TopLevelsOnce(locale, s, tops);
    AreGrouped(locale, made, result);
    forall k: NavItem ensures k in RootsOf(result) <==> k in made && ParentIn(made, k) == None {
      RootIff(locale, s, tops, k);
    }
    Distinct(s);
    EveryItemListed(locale, made, RootsOf(result));
    f := EachOnce(ParentsIn(made), ChildLists(made, result));
    if Collation(locale) {
      SidebarSorted(locale, s, tops, result, born);
      SidebarTies(locale, s, result, born);
    }
  }

  /** The chain above an item of a group stays in that group, so a cycle is one of labels inside the group. */
  lemma {:induction false} ChainStaysInGroup(made: seq<NavItem>, k: NavItem, n: nat)
    requires WellMade(made) && k in made && k.entry.place.InGroup?
    ensures var above := Up(ParentsIn(made), Some(k), n);
            above.Some? ==> above.value in made && above.value.entry.place == k.entry.place
  {
    hide WellMade, ParentIn;
    if n > 0 {
      ChainStaysInGroup(made, k, n - 1);
      var before, above := Up(ParentsIn(made), Some(k), n - 1), Up(ParentsIn(made), Some(k), n);
      if above.Some? {
        ParentInGroup(made, before.value, above.value);
      }
    }
  }
}
