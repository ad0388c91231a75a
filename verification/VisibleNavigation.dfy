/**
 `PanelInstance.visibleNavigation` of packages/admin/src/PanelInstance.ts: the sidebar one user sees.

 It filters the top levels and the children of what it keeps there, and copies the rest as it is. What it
 promises is to drop every entry whose ability is denied, with everything below it; the two agree exactly when
 nothing denied sits below the second level of what is shown.
 */
module VisibleNavigation {
  import opened Navigation
  import opened ParentForest
  import opened SidebarEntries
  import opened StableSort
  import opened Wrappers

  /** `mayView` is `can("viewAny")` of a resource, `None` when it throws; `can` resolves a declared ability. */
  datatype Policy = Policy(mayView: Resource -> Option<bool>, can: Option<string> -> bool)

  type May = Entry -> bool

  /** `resourceBySlug.get(slug)`: of several, the last. */
  function ResourceBySlug(rs: seq<Resource>, slug: string): (r: Option<Resource>)
    ensures r.Some? ==> r.value in rs && r.value.slug == slug
    ensures r.None? ==> forall x :: x in rs ==> x.slug != slug
  {
    if rs == [] then None
    else if rs[|rs| - 1].slug == slug then Some(rs[|rs| - 1])
    else ResourceBySlug(rs[..|rs| - 1], slug)
  }

  predicate Allowed(panel: Panel, policy: Policy, e: Entry) {
    var r := ResourceBySlug(panel.resources, e.slug);
    if r.Some? then policy.mayView(r.value) == Some(true) else policy.can(e.ability)
  }

  function MayOf(panel: Panel, policy: Policy): May {
    (e: Entry) => Allowed(panel, policy, e)
  }

  /** The allowed ones of `items`, in order. */
  function Kept(may: May, items: seq<NavItem>): seq<NavItem> {
    if items == [] then []
    else Kept(may, items[..|items| - 1]) + if may(items[|items| - 1].entry) then [items[|items| - 1]] else []
  }

  lemma KeptStep(may: May, items: seq<NavItem>, n: nat)
    requires n < |items|
    ensures Kept(may, items[..n + 1]) == Kept(may, items[..n]) + if may(items[n].entry) then [items[n]] else []
  {
    assert items[..n + 1][..n] == items[..n];
  }

  // ---------------------------------------------------------------- the walk

  /** `kids` lists the children of each of `items` as they stand. */
  ghost predicate Standing(kids: Kids<NavItem>, items: seq<NavItem>)
    reads items
  {
    forall i :: 0 <= i < |items| ==> ChildrenOf(items[i]) == Listed(kids, Some(items[i]))
  }

  /** `y` stands for `x`: the same entry, with the allowed ones of its children. */
  ghost predicate StandsFor(may: May, kids: Kids<NavItem>, x: NavItem, y: NavItem)
    reads y
  {
    y.entry == x.entry && ChildrenOf(y) == Kept(may, Listed(kids, Some(x)))
  }

  ghost predicate AllStandFor(may: May, kids: Kids<NavItem>, xs: seq<NavItem>, ys: seq<NavItem>)
    reads ys
  {
    |xs| == |ys| && forall i :: 0 <= i < |xs| ==> StandsFor(may, kids, xs[i], ys[i])
  }

  method KeepAllowed(panel: Panel, policy: Policy, items: seq<NavItem>) returns (kept: seq<NavItem>)
    ensures kept == Kept(MayOf(panel, policy), items)
  {
    hide Allowed;
    var may := MayOf(panel, policy);
    kept := [];
    for n := 0 to |items|
      invariant kept == Kept(may, items[..n])
    {
      KeptStep(may, items, n);
      if Allowed(panel, policy, items[n].entry) {
        kept := kept + [items[n]];
      }
    }
    TakeAll(items);
  }

  /** An item with children is copied with those that are allowed; one without is shown as it is. */
  method ShowItem(panel: Panel, policy: Policy, x: NavItem, ghost kids: Kids<NavItem>) returns (y: NavItem)
    requires ChildrenOf(x) == Listed(kids, Some(x))
    ensures StandsFor(MayOf(panel, policy), kids, x, y)
    ensures if ChildrenOf(x) == [] then y == x else fresh(y)
  {
    if ChildrenOf(x) != [] {
      var children := KeepAllowed(panel, policy, ChildrenOf(x));
      y := new NavItem(x.entry, Some(children));
    } else {
      y := x;
    }
  }

  method ShowItems(panel: Panel, policy: Policy, items: seq<NavItem>, ghost kids: Kids<NavItem>) returns (shown: seq<NavItem>)
    requires Standing(kids, items)
    ensures AllStandFor(MayOf(panel, policy), kids, Kept(MayOf(panel, policy), items), shown)
  {
    hide Allowed, StandsFor;
    var may := MayOf(panel, policy);
    shown := [];
    for n := 0 to |items|
      invariant AllStandFor(may, kids, Kept(may, items[..n]), shown)
    {
      KeptStep(may, items, n);
      if !Allowed(panel, policy, items[n].entry) {
        continue;
      }
      var y := ShowItem(panel, policy, items[n], kids);
      shown := shown + [y];
    }
    TakeAll(items);
  }

  /** The groups that have something to show, with what they show. */
  function KeptGroups(may: May, groups: seq<NavGroup>): seq<NavGroup> {
    if groups == [] then []
    else
      var last := groups[|groups| - 1];
      KeptGroups(may, groups[..|groups| - 1]) + if Kept(may, last.items) == [] then [] else [NavGroup(last.group, Kept(may, last.items))]
  }

  /** The loop over the groups of `navigation()`. */
  method FilterGroups(panel: Panel, policy: Policy, groups: seq<NavGroup>, ghost kids: Kids<NavItem>) returns (shown: seq<NavGroup>)
    requires forall i :: 0 <= i < |groups| ==> Standing(kids, groups[i].items)
    ensures var may := MayOf(panel, policy);
            var kept := KeptGroups(may, groups);
            && |shown| == |kept|
            && forall i :: 0 <= i < |kept| ==> shown[i].group == kept[i].group && AllStandFor(may, kids, kept[i].items, shown[i].items)
    ensures forall i :: 0 <= i < |shown| ==> shown[i].items != []
  {
    hide Allowed, AllStandFor, Kept, Standing;
    var may := MayOf(panel, policy);
    shown := [];
    for n := 0 to |groups|
      invariant var kept := KeptGroups(may, groups[..n]);
                && |shown| == |kept|
                && forall i :: 0 <= i < |kept| ==> shown[i].group == kept[i].group && AllStandFor(may, kids, kept[i].items, shown[i].items)
      invariant forall i :: 0 <= i < |shown| ==> shown[i].items != []
    {
      assert groups[..n + 1][..n] == groups[..n];
      var items := ShowItems(panel, policy, groups[n].items, kids);
      SameSize(may, kids, Kept(may, groups[n].items), items);
      if items != [] {
        shown := shown + [NavGroup(groups[n].group, items)];
      }
    }
    TakeAll(groups);
  }

  lemma SameSize(may: May, kids: Kids<NavItem>, xs: seq<NavItem>, ys: seq<NavItem>)
    requires AllStandFor(may, kids, xs, ys)
    ensures |xs| == |ys|
  {
  }

  // ---------------------------------------------------------------- the forest that is shown

  /** The allowed trees of a level, whatever is below their roots. */
  function Cut(may: May, f: Forest<NavItem>): Forest<NavItem> {
    match f
    case Empty => Empty
    case Node(x, kids, rest) => if may(x.entry) then Node(x, kids, Cut(may, rest)) else Cut(may, rest)
  }

  /** Two levels filtered. */
  function Shown(may: May, f: Forest<NavItem>): Forest<NavItem> {
    match f
    case Empty => Empty
    case Node(x, kids, rest) => if may(x.entry) then Node(x, Cut(may, kids), Shown(may, rest)) else Shown(may, rest)
  }

  /** Every denied entry dropped, with all that is below it. */
  function Permitted(may: May, f: Forest<NavItem>): Forest<NavItem> {
    match f
    case Empty => Empty
    case Node(x, kids, rest) =>
      if may(x.entry) then Node(x, Permitted(may, kids), Permitted(may, rest)) else Permitted(may, rest)
  }

  lemma {:induction false} KeptFromFront(may: May, x: NavItem, items: seq<NavItem>)
    ensures Kept(may, [x] + items) == (if may(x.entry) then [x] else []) + Kept(may, items)
  {
    if items == [] {
      assert [x] + items == [x];
      assert [x][..0] == [];
    } else {
      var init := items[..|items| - 1];
      KeptFromFront(may, x, init);
      assert ([x] + items)[..|items|] == [x] + init;
    }
  }

  lemma {:induction false} CutRoots(may: May, f: Forest<NavItem>)
    ensures Roots(Cut(may, f)) == Kept(may, Roots(f))
  {
    if f.Node? {
      CutRoots(may, f.rest);
      KeptFromFront(may, f.item, Roots(f.rest));
    }
  }

  lemma {:induction false} ShownRoots(may: May, f: Forest<NavItem>)
    ensures Roots(Shown(may, f)) == Kept(may, Roots(f))
  {
    if f.Node? {
      ShownRoots(may, f.rest);
      KeptFromFront(may, f.item, Roots(f.rest));
    }
  }

  /** The lists after filtering the top level and the children of what is on it. */
  ghost function KeptLists(may: May, kids: Kids<NavItem>, top: seq<NavItem>): Kids<NavItem> {
    map p | p in kids :: if p.None? || p.value in top then Kept(may, kids[p]) else kids[p]
  }

  /** Below the second level nothing is filtered. */
  lemma {:induction false} DeepIsUntouched(may: May, kids: Kids<NavItem>, top: seq<NavItem>, f: Forest<NavItem>)
    requires GrownBelow(kids, f) && forall i :: 0 <= i < |Order(f)| ==> Order(f)[i] !in top
    ensures GrownBelow(KeptLists(may, kids, top), f)
  {
    if f.Node? {
      OrderParts(f, top);
      DeepIsUntouched(may, kids, top, f.kids);
      DeepIsUntouched(may, kids, top, f.rest);
    }
  }

  lemma OrderParts(f: Forest<NavItem>, top: seq<NavItem>)
    requires f.Node? && forall i :: 0 <= i < |Order(f)| ==> Order(f)[i] !in top
    ensures f.item !in top
    ensures forall i :: 0 <= i < |Order(f.kids)| ==> Order(f.kids)[i] !in top
    ensures forall i :: 0 <= i < |Order(f.rest)| ==> Order(f.rest)[i] !in top
  {
    assert Order(f)[0] == f.item;
    assert forall i :: 0 <= i < |Order(f.kids)| ==> Order(f)[1 + i] == Order(f.kids)[i];
    assert forall i :: 0 <= i < |Order(f.rest)| ==> Order(f)[1 + |Order(f.kids)| + i] == Order(f.rest)[i];
  }

  lemma {:induction false} CutGrown(may: May, kids: Kids<NavItem>, f: Forest<NavItem>)
    requires GrownBelow(kids, f)
    ensures GrownBelow(kids, Cut(may, f))
  {
    if f.Node? {
      CutGrown(may, kids, f.rest);
    }
  }

  /** Nothing below the roots is among them. */
  ghost predicate ApartFrom(f: Forest<NavItem>, top: seq<NavItem>) {
    f.Node? ==>
      && f.item in top && ApartFrom(f.rest, top)
      && forall i :: 0 <= i < |Order(f.kids)| ==> Order(f.kids)[i] !in top
  }

  lemma {:induction false} ShownGrown(may: May, kids: Kids<NavItem>, top: seq<NavItem>, f: Forest<NavItem>)
    requires GrownBelow(kids, f) && ApartFrom(f, top)
    ensures GrownBelow(KeptLists(may, kids, top), Shown(may, f))
  {
    if f.Node? {
      ShownGrown(may, kids, top, f.rest);
      DeepIsUntouched(may, kids, top, f.kids);
      CutGrown(may, KeptLists(may, kids, top), f.kids);
      CutRoots(may, f.kids);
    }
  }

  lemma SplitDistinct(a: seq<NavItem>, x: NavItem, b: seq<NavItem>, c: seq<NavItem>, i: nat, y: NavItem)
    requires NoDuplicates(a + ([x] + b + c)) && i < |b| && b[i] == y
    ensures y !in a && y != x && y !in c
  {
    var all := a + ([x] + b + c);
    assert all[|a| + 1 + i] == y && all[|a|] == x;
    assert forall j :: 0 <= j < |a| ==> all[j] == a[j];
    assert forall j :: 0 <= j < |c| ==> all[|a| + 1 + |b| + j] == c[j];
  }

  /** `a` and `top` are the items and the roots of the trees before `f`. */
  lemma {:induction false} RootsApart(f: Forest<NavItem>, a: seq<NavItem>, top: seq<NavItem>)
    requires NoDuplicates(a + Order(f)) && forall i :: 0 <= i < |top| ==> top[i] in a
    ensures ApartFrom(f, top + Roots(f))
  {
    if f.Node? {
      var all := top + Roots(f);
      assert all == top + [f.item] + Roots(f.rest);
      assert a + Order(f) == a + [f.item] + Order(f.kids) + Order(f.rest);
      RootsApart(f.rest, a + [f.item] + Order(f.kids), top + [f.item]);
      assert all[|top|] == f.item;
      forall i | 0 <= i < |Order(f.kids)| ensures Order(f.kids)[i] !in all {
        var y := Order(f.kids)[i];
        SplitDistinct(a, f.item, Order(f.kids), Order(f.rest), i, y);
        if y in Roots(f.rest) {
          RootsInOrder(f.rest, y);
        }
      }
    }
  }

  /** What the filtered lists describe is the forest cut on its first two levels. */
  lemma ShownIsGrown(may: May, par: map<NavItem, Option<NavItem>>, kids: Kids<NavItem>, f: Forest<NavItem>)
    requires HoldsEachOnce(par, kids, f) && None in kids
    ensures Grown(KeptLists(may, kids, Roots(f)), Shown(may, f), None)
  {
    assert [] + Order(f) == Order(f) && [] + Roots(f) == Roots(f);
    RootsApart(f, [], []);
    ShownGrown(may, kids, Roots(f), f);
    ShownRoots(may, f);
  }

  lemma {:induction false} KeptJoin(may: May, a: seq<NavItem>, b: seq<NavItem>)
    ensures Kept(may, a + b) == Kept(may, a) + Kept(may, b)
  {
    if b == [] {
      assert a + b == a;
    } else {
      KeptJoin(may, a, b[..|b| - 1]);
      assert (a + b)[..|a + b| - 1] == a + b[..|b| - 1];
    }
  }

  /** Dropping empty groups loses nothing: the top levels shown are the allowed entries of the top levels, in order. */
  lemma {:induction false} KeptGroupsRoots(may: May, groups: seq<NavGroup>)
    ensures RootsOf(KeptGroups(may, groups)) == Kept(may, RootsOf(groups))
  {
    if groups != [] {
      var init, last := groups[..|groups| - 1], groups[|groups| - 1];
      KeptGroupsRoots(may, init);
      KeptJoin(may, RootsOf(init), last.items);
      var before, kept := KeptGroups(may, init), Kept(may, last.items);
      assert RootsOf(groups) == RootsOf(init) + last.items;
      if kept == [] {
        assert Kept(may, RootsOf(init)) + kept == Kept(may, RootsOf(init));
        assert KeptGroups(may, groups) == before + [];
        assert before + [] == before;
      } else {
        assert (before + [NavGroup(last.group, kept)])[..|before|] == before;
      }
    }
  }

  // ---------------------------------------------------------------- what is promised

  ghost predicate AllMay(may: May, items: seq<NavItem>) {
    forall i :: 0 <= i < |items| ==> may(items[i].entry)
  }

  lemma AllMayJoin(may: May, a: seq<NavItem>, b: seq<NavItem>)
    ensures AllMay(may, a + b) <==> AllMay(may, a) && AllMay(may, b)
  {
    assert forall i :: 0 <= i < |a| ==> (a + b)[i] == a[i];
    assert forall i :: 0 <= i < |b| ==> (a + b)[|a| + i] == b[i];
  }

  lemma {:induction false} PermittedMay(may: May, f: Forest<NavItem>)
    ensures AllMay(may, Order(Permitted(may, f)))
  {
    if f.Node? {
      PermittedMay(may, f.kids);
      PermittedMay(may, f.rest);
      if may(f.item.entry) {
        AllMayJoin(may, [f.item], Order(Permitted(may, f.kids)));
        AllMayJoin(may, [f.item] + Order(Permitted(may, f.kids)), Order(Permitted(may, f.rest)));
      }
    }
  }

  lemma {:induction false} AllMayKeepsAll(may: May, f: Forest<NavItem>)
    requires AllMay(may, Order(f))
    ensures Permitted(may, f) == f
  {
    if f.Node? {
      AllMayJoin(may, [f.item], Order(f.kids));
      AllMayJoin(may, [f.item] + Order(f.kids), Order(f.rest));
      assert may([f.item][0].entry);
      AllMayKeepsAll(may, f.kids);
      AllMayKeepsAll(may, f.rest);
    }
  }

  lemma {:induction false} CutIsPermitted(may: May, f: Forest<NavItem>)
    requires AllMay(may, Order(Cut(may, f)))
    ensures Cut(may, f) == Permitted(may, f)
  {
    if f.Node? {
      if may(f.item.entry) {
        AllMayJoin(may, [f.item], Order(f.kids));
        AllMayJoin(may, [f.item] + Order(f.kids), Order(Cut(may, f.rest)));
        AllMayKeepsAll(may, f.kids);
      }
      CutIsPermitted(may, f.rest);
    }
  }

  lemma {:induction false} ShownIsPermitted(may: May, f: Forest<NavItem>)
    requires AllMay(may, Order(Shown(may, f)))
    ensures Shown(may, f) == Permitted(may, f)
  {
    if f.Node? {
      if may(f.item.entry) {
        AllMayJoin(may, [f.item], Order(Cut(may, f.kids)));
        AllMayJoin(may, [f.item] + Order(Cut(may, f.kids)), Order(Shown(may, f.rest)));
        CutIsPermitted(may, f.kids);
      }
      ShownIsPermitted(may, f.rest);
    }
  }

  /** What is on the third level and below, under what is shown on the first two. */
  function BelowSecond(may: May, f: Forest<NavItem>): seq<NavItem> {
    match f
    case Empty => []
    case Node(x, kids, rest) => (if may(x.entry) then BelowFirst(may, kids) else []) + BelowSecond(may, rest)
  }

  function BelowFirst(may: May, f: Forest<NavItem>): seq<NavItem> {
    match f
    case Empty => []
    case Node(x, kids, rest) => (if may(x.entry) then Order(kids) else []) + BelowFirst(may, rest)
  }

  lemma {:induction false} CutMayIff(may: May, f: Forest<NavItem>)
    ensures AllMay(may, Order(Cut(may, f))) <==> AllMay(may, BelowFirst(may, f))
  {
    if f.Node? {
      CutMayIff(may, f.rest);
      if may(f.item.entry) {
        AllMayJoin(may, [f.item], Order(f.kids));
        AllMayJoin(may, [f.item] + Order(f.kids), Order(Cut(may, f.rest)));
        AllMayJoin(may, Order(f.kids), BelowFirst(may, f.rest));
      } else {
        AllMayJoin(may, [], BelowFirst(may, f.rest));
      }
    }
  }

  lemma {:induction false} ShownMayIff(may: May, f: Forest<NavItem>)
    ensures AllMay(may, Order(Shown(may, f))) <==> AllMay(may, BelowSecond(may, f))
  {
    if f.Node? {
      ShownMayIff(may, f.rest);
      if may(f.item.entry) {
        CutMayIff(may, f.kids);
        AllMayJoin(may, [f.item], Order(Cut(may, f.kids)));
        AllMayJoin(may, [f.item] + Order(Cut(may, f.kids)), Order(Shown(may, f.rest)));
        AllMayJoin(may, BelowFirst(may, f.kids), BelowSecond(may, f.rest));
      } else {
        AllMayJoin(may, [], BelowSecond(may, f.rest));
      }
    }
  }

  /**
   A user is shown what the source promises, every denied entry dropped with all below it, exactly when nothing
   denied sits on the third level or deeper under two allowed entries.
   */
  lemma ShownAsPromisedIff(may: May, f: Forest<NavItem>)
    ensures Shown(may, f) == Permitted(may, f) <==> AllMay(may, BelowSecond(may, f))
  {
    ShownMayIff(may, f);
    PermittedMay(may, f);
    if AllMay(may, Order(Shown(may, f))) {
      ShownIsPermitted(may, f);
    }
  }

  // ---------------------------------------------------------------- visibleNavigation()

  /** The entries of a forest of items. */
  function EntryForest(f: Forest<NavItem>): Forest<Entry> {
    match f
    case Empty => Empty
    case Node(x, kids, rest) => Node(x.entry, EntryForest(kids), EntryForest(rest))
  }

  /** What is shown of `f`, with the returned items in place of the roots. */
  function WithRoots(may: May, f: Forest<NavItem>, ys: seq<NavItem>): Forest<NavItem>
    decreases f
  {
    match f
    case Empty => Empty
    case Node(x, kids, rest) =>
      if !may(x.entry) then WithRoots(may, rest, ys)
      else if ys == [] then Empty
      else Node(ys[0], Cut(may, kids), WithRoots(may, rest, ys[1..]))
  }

  /** The kept roots without the first. */
  lemma KeptRest(may: May, f: Forest<NavItem>)
    requires f.Node?
    ensures Kept(may, Roots(f)) == (if may(f.item.entry) then [f.item] else []) + Kept(may, Roots(f.rest))
  {
    KeptFromFront(may, f.item, Roots(f.rest));
  }

  lemma {:induction false} WithRootsRoots(may: May, f: Forest<NavItem>, ys: seq<NavItem>)
    requires |ys| == |Kept(may, Roots(f))|
    ensures Roots(WithRoots(may, f, ys)) == ys
    decreases f
  {
    if f.Node? {
      KeptRest(may, f);
      if may(f.item.entry) {
        WithRootsRoots(may, f.rest, ys[1..]);
        assert ys == [ys[0]] + ys[1..];
      } else {
        assert [] + Kept(may, Roots(f.rest)) == Kept(may, Roots(f.rest));
        WithRootsRoots(may, f.rest, ys);
      }
    }
  }

  ghost predicate SameEntries(xs: seq<NavItem>, ys: seq<NavItem>) {
    |xs| == |ys| && forall i :: 0 <= i < |xs| ==> xs[i].entry == ys[i].entry
  }

  lemma {:induction false} WithRootsEntries(may: May, f: Forest<NavItem>, ys: seq<NavItem>)
    requires SameEntries(Kept(may, Roots(f)), ys)
    ensures EntryForest(WithRoots(may, f, ys)) == EntryForest(Shown(may, f))
    decreases f
  {
    if f.Node? {
      var kept := Kept(may, Roots(f));
      KeptRest(may, f);
      if may(f.item.entry) {
        assert kept[0] == f.item && kept[1..] == Kept(may, Roots(f.rest));
        WithRootsEntries(may, f.rest, ys[1..]);
      } else {
        assert kept == Kept(may, Roots(f.rest));
        WithRootsEntries(may, f.rest, ys);
      }
    }
  }

  /** Two lists that both say what `children` is describe the same forest. */
  lemma {:induction false} GrownSame(kids: Kids<NavItem>, now: Kids<NavItem>, f: Forest<NavItem>)
    requires GrownBelow(kids, f) && Standing(kids, Order(f)) && Standing(now, Order(f))
    ensures GrownBelow(now, f)
  {
    if f.Node? {
      StandingParts(kids, [f.item], Order(f.kids), Order(f.rest));
      StandingParts(now, [f.item], Order(f.kids), Order(f.rest));
      GrownSame(kids, now, f.kids);
      GrownSame(kids, now, f.rest);
      assert Listed(now, Some([f.item][0])) == ChildrenOf(f.item) == Listed(kids, Some([f.item][0]));
    }
  }

  lemma StandingParts(kids: Kids<NavItem>, a: seq<NavItem>, b: seq<NavItem>, c: seq<NavItem>)
    requires Standing(kids, a + b + c)
    ensures Standing(kids, a) && Standing(kids, b) && Standing(kids, c)
  {
    var all := a + b + c;
    assert forall i :: 0 <= i < |a| ==> all[i] == a[i];
    assert forall i :: 0 <= i < |b| ==> all[|a| + i] == b[i];
    assert forall i :: 0 <= i < |c| ==> all[|a| + |b| + i] == c[i];
  }

  lemma {:induction false} CutStanding(may: May, kids: Kids<NavItem>, f: Forest<NavItem>)
    requires Standing(kids, Order(f))
    ensures Standing(kids, Order(Cut(may, f)))
  {
    if f.Node? {
      StandingParts(kids, [f.item], Order(f.kids), Order(f.rest));
      CutStanding(may, kids, f.rest);
    }
  }

  lemma {:induction false} WithRootsGrown(may: May, kids: Kids<NavItem>, now: Kids<NavItem>, f: Forest<NavItem>, ys: seq<NavItem>)
    requires GrownBelow(kids, f) && Standing(kids, Order(f)) && AllStandFor(may, kids, Kept(may, Roots(f)), ys)
    requires Standing(now, Order(WithRoots(may, f, ys)))
    ensures GrownBelow(now, WithRoots(may, f, ys))
    decreases f
  {
    hide StandsFor, Standing;
    if f.Node? {
      var kept := Kept(may, Roots(f));
      KeptRest(may, f);
      StandingParts(kids, [f.item], Order(f.kids), Order(f.rest));
      if may(f.item.entry) {
        assert kept[0] == f.item && kept[1..] == Kept(may, Roots(f.rest));
        StandingParts(now, [ys[0]], Order(Cut(may, f.kids)), Order(WithRoots(may, f.rest, ys[1..])));
        RootGrown(may, kids, now, f, ys[0]);
        CutGrown(may, kids, f.kids);
        CutStanding(may, kids, f.kids);
        GrownSame(kids, now, Cut(may, f.kids));
        WithRootsGrown(may, kids, now, f.rest, ys[1..]);
      } else {
        assert kept == Kept(may, Roots(f.rest));
        WithRootsGrown(may, kids, now, f.rest, ys);
      }
    }
  }

  lemma RootGrown(may: May, kids: Kids<NavItem>, now: Kids<NavItem>, f: Forest<NavItem>, y: NavItem)
    requires f.Node? && GrownBelow(kids, f) && StandsFor(may, kids, f.item, y) && Standing(now, [y])
    ensures Roots(Cut(may, f.kids)) == Listed(now, Some(y))
  {
    CutRoots(may, f.kids);
    assert ChildrenOf([y][0]) == Listed(now, Some([y][0]));
  }

  /** Group by group, and so for the top levels in a row. */
  lemma {:induction false} FlatStandFor(may: May, kids: Kids<NavItem>, kept: seq<NavGroup>, shown: seq<NavGroup>)
    requires |kept| == |shown| && forall i :: 0 <= i < |kept| ==> AllStandFor(may, kids, kept[i].items, shown[i].items)
    ensures AllStandFor(may, kids, RootsOf(kept), RootsOf(shown))
  {
    hide StandsFor;
    if kept != [] {
      FlatStandFor(may, kids, kept[..|kept| - 1], shown[..|shown| - 1]);
    }
  }

  lemma StandForEntries(may: May, kids: Kids<NavItem>, xs: seq<NavItem>, ys: seq<NavItem>)
    requires AllStandFor(may, kids, xs, ys)
    ensures SameEntries(xs, ys) && |xs| == |ys|
  {
  }

  lemma {:induction false} EntriesInOrder(f: Forest<NavItem>)
    ensures Order(EntryForest(f)) == EntriesOf(Order(f))
  {
    if f.Node? {
      EntriesInOrder(f.kids);
      EntriesInOrder(f.rest);
    }
  }

  /** `ShownAsPromisedIff` for what can be seen of the items. */
  lemma SeenAsPromisedIff(may: May, f: Forest<NavItem>)
    ensures EntryForest(Shown(may, f)) == EntryForest(Permitted(may, f)) <==> AllMay(may, BelowSecond(may, f))
  {
    ShownAsPromisedIff(may, f);
    ShownMayIff(may, f);
    PermittedMay(may, f);
    EntriesInOrder(Shown(may, f));
    EntriesInOrder(Permitted(may, f));
    if EntryForest(Shown(may, f)) == EntryForest(Permitted(may, f)) {
      SameEntriesSameMay(may, Order(Shown(may, f)), Order(Permitted(may, f)));
    }
  }

  lemma SameEntriesSameMay(may: May, xs: seq<NavItem>, ys: seq<NavItem>)
    requires EntriesOf(xs) == EntriesOf(ys) && AllMay(may, ys)
    ensures AllMay(may, xs)
  {
    assert |EntriesOf(xs)| == |xs| && |EntriesOf(ys)| == |ys|;
    forall i | 0 <= i < |xs| ensures may(xs[i].entry) {
      assert EntriesOf(xs)[i] == EntriesOf(ys)[i];
    }
  }

  lemma ListsStand(items: seq<NavItem>, groups: seq<NavGroup>)
    ensures Standing(ChildLists(items, groups), items)
  {
    var kids := ChildLists(items, groups);
    forall i | 0 <= i < |items| ensures ChildrenOf(items[i]) == Listed(kids, Some(items[i])) {
      assert items[i] in items && Some(items[i]) in kids;
    }
  }

  lemma StandingSome(kids: Kids<NavItem>, items: seq<NavItem>, some: seq<NavItem>)
    requires Standing(kids, items) && forall i :: 0 <= i < |some| ==> some[i] in items
    ensures Standing(kids, some)
  {
  }

  lemma NavigationHolds(made: seq<NavItem>, result: seq<NavGroup>, f: Forest<NavItem>)
    requires HoldsEachOnce(ParentsIn(made), ChildLists(made, result), f)
    ensures forall i :: 0 <= i < |Order(f)| ==> Order(f)[i] in made
    ensures Roots(f) == RootsOf(result) && GrownBelow(ChildLists(made, result), f)
  {
    assert Listed(ChildLists(made, result), None) == RootsOf(result);
  }

  /** Every item of the navigation has the children its list says. */
  lemma NavigationStands(made: seq<NavItem>, result: seq<NavGroup>, f: Forest<NavItem>)
    requires HoldsEachOnce(ParentsIn(made), ChildLists(made, result), f)
    ensures Standing(ChildLists(made, result), Order(f)) && Roots(f) == RootsOf(result) && GrownBelow(ChildLists(made, result), f)
    ensures forall i :: 0 <= i < |result| ==> Standing(ChildLists(made, result), result[i].items)
  {
    hide *;
    NavigationHolds(made, result, f);
    ListsStand(made, result);
    StandingSome(ChildLists(made, result), made, Order(f));
    forall i | 0 <= i < |result| ensures Standing(ChildLists(made, result), result[i].items) {
      forall j | 0 <= j < |result[i].items| ensures result[i].items[j] in made {
        RootOfGroup(result, i, j);
        RootsInOrder(f, result[i].items[j]);
        var k :| 0 <= k < |Order(f)| && Order(f)[k] == result[i].items[j];
      }
      StandingSome(ChildLists(made, result), made, result[i].items);
    }
  }

  lemma {:induction false} RootOfGroup(groups: seq<NavGroup>, i: nat, j: nat)
    requires i < |groups| && j < |groups[i].items|
    ensures groups[i].items[j] in RootsOf(groups)
  {
    if i < |groups| - 1 {
      RootOfGroup(groups[..|groups| - 1], i, j);
    }
  }

  // ---------------------------------------------------------------- what is shown is in order

  /** Groups in order, and in each the items and the children of each item. */
  ghost predicate ShownInOrder(locale: Locale, shown: seq<NavGroup>)
    reads RootsOf(shown)
  {
    && InOrder(GroupLe(locale), shown)
    && (forall i :: 0 <= i < |shown| ==> InOrder(ItemLe(locale), shown[i].items))
    && forall i :: 0 <= i < |RootsOf(shown)| ==> InOrder(ItemLe(locale), ChildrenOf(RootsOf(shown)[i]))
  }

  lemma {:induction false} KeptFrom(may: May, items: seq<NavItem>)
    ensures forall i :: 0 <= i < |Kept(may, items)| ==> Kept(may, items)[i] in items
  {
    if items != [] {
      KeptFrom(may, items[..|items| - 1]);
    }
  }

  lemma {:induction false} KeptInOrder(locale: Locale, may: May, items: seq<NavItem>)
    requires InOrder(ItemLe(locale), items)
    ensures InOrder(ItemLe(locale), Kept(may, items))
  {
    if items != [] {
      var init := items[..|items| - 1];
      KeptInOrder(locale, may, init);
      KeptFrom(may, init);
    }
  }

  /** Each kept group is what is kept of a group. */
  lemma {:induction false} KeptGroupFrom(may: May, groups: seq<NavGroup>, i: nat) returns (j: nat)
    requires i < |KeptGroups(may, groups)|
    ensures j < |groups| && KeptGroups(may, groups)[i] == NavGroup(groups[j].group, Kept(may, groups[j].items))
  {
    var init := groups[..|groups| - 1];
    if i < |KeptGroups(may, init)| {
      j := KeptGroupFrom(may, init, i);
    } else {
      j := |groups| - 1;
    }
  }

  lemma {:induction false} KeptGroupsInOrder(locale: Locale, may: May, groups: seq<NavGroup>)
    requires InOrder(GroupLe(locale), groups)
    ensures InOrder(GroupLe(locale), KeptGroups(may, groups))
  {
    if groups != [] {
      var init, last := groups[..|groups| - 1], groups[|groups| - 1];
      KeptGroupsInOrder(locale, may, init);
      forall i | 0 <= i < |KeptGroups(may, init)| ensures GroupLe(locale)(KeptGroups(may, init)[i], last) {
        var j := KeptGroupFrom(may, init, i);
        assert GroupLe(locale)(groups[j], last);
      }
    }
  }

  lemma SameGroupsInOrder(locale: Locale, kept: seq<NavGroup>, shown: seq<NavGroup>)
    requires InOrder(GroupLe(locale), kept) && |kept| == |shown|
    requires forall i :: 0 <= i < |kept| ==> shown[i].group == kept[i].group
    ensures InOrder(GroupLe(locale), shown)
  {
    forall i, j | 0 <= i < j < |shown| ensures GroupLe(locale)(shown[i], shown[j]) {
      assert GroupLe(locale)(kept[i], kept[j]);
    }
  }

  lemma SameItemsInOrder(locale: Locale, xs: seq<NavItem>, ys: seq<NavItem>)
    requires InOrder(ItemLe(locale), xs) && SameEntries(xs, ys)
    ensures InOrder(ItemLe(locale), ys)
  {
    forall i, j | 0 <= i < j < |ys| ensures ItemLe(locale)(ys[i], ys[j]) {
      assert ItemLe(locale)(xs[i], xs[j]);
    }
  }

  /** The children of the top-level items are in order. */
  lemma TopChildrenInOrder(locale: Locale, made: seq<NavItem>, result: seq<NavGroup>, x: NavItem)
    requires InSidebarOrder(locale, made, result) && Listing(ParentsIn(made), ChildLists(made, result)) && x in RootsOf(result)
    ensures InOrder(ItemLe(locale), Listed(ChildLists(made, result), Some(x)))
  {
    hide *;
    ListsAre(made, result, x);
    ParentListed(ParentsIn(made), ChildLists(made, result), None, x);
    ParentOfMade(made, x);
    SidebarChildren(locale, made, result, x);
  }

  lemma ListsAre(made: seq<NavItem>, result: seq<NavGroup>, x: NavItem)
    ensures None in ChildLists(made, result) && ChildLists(made, result)[None] == RootsOf(result)
    ensures x in made ==> Listed(ChildLists(made, result), Some(x)) == ChildrenOf(x)
  {
  }

  lemma ParentListed(par: map<NavItem, Option<NavItem>>, kids: Kids<NavItem>, p: Option<NavItem>, x: NavItem)
    requires Listing(par, kids) && p in kids && x in kids[p]
    ensures x in par && par[x] == p
  {
  }

  lemma ParentOfMade(made: seq<NavItem>, x: NavItem)
    requires x in ParentsIn(made)
    ensures x in made && ParentsIn(made)[x] == ParentIn(made, x)
  {
  }

  lemma SidebarChildren(locale: Locale, made: seq<NavItem>, result: seq<NavGroup>, x: NavItem)
    requires InSidebarOrder(locale, made, result) && x in made && ParentIn(made, x) == None
    ensures InOrder(ItemLe(locale), ChildrenOf(x))
  {
    hide InOrder;
  }

  lemma ShownKeepsOrder(locale: Locale, may: May, made: seq<NavItem>, result: seq<NavGroup>, shown: seq<NavGroup>)
    requires InSidebarOrder(locale, made, result) && Listing(ParentsIn(made), ChildLists(made, result))
    requires AllStandFor(may, ChildLists(made, result), Kept(may, RootsOf(result)), RootsOf(shown))
    requires var kept := KeptGroups(may, result);
             |shown| == |kept| && forall i :: 0 <= i < |shown| ==> shown[i].group == kept[i].group && SameEntries(kept[i].items, shown[i].items)
    ensures ShownInOrder(locale, shown)
  {
    hide ChildLists, KeptGroups, Kept, InOrder, Listed, SameEntries, Listing, StandsFor;
    var kids, kept := ChildLists(made, result), KeptGroups(may, result);
    KeptGroupsInOrder(locale, may, result);
    SameGroupsInOrder(locale, kept, shown);
    forall i | 0 <= i < |shown| ensures InOrder(ItemLe(locale), shown[i].items) {
      var j := KeptGroupFrom(may, result, i);
      KeptInOrder(locale, may, result[j].items);
      SameItemsInOrder(locale, kept[i].items, shown[i].items);
    }
    var xs, ys := Kept(may, RootsOf(result)), RootsOf(shown);
    KeptFrom(may, RootsOf(result));
    forall i | 0 <= i < |ys| ensures InOrder(ItemLe(locale), ChildrenOf(ys[i])) {
      TopChildrenInOrder(locale, made, result, xs[i]);
      StandsChildren(may, kids, xs[i], ys[i]);
      KeptInOrder(locale, may, Listed(kids, Some(xs[i])));
    }
  }

  lemma StandsChildren(may: May, kids: Kids<NavItem>, x: NavItem, y: NavItem)
    requires StandsFor(may, kids, x, y)
    ensures ChildrenOf(y) == Kept(may, Listed(kids, Some(x)))
  {
  }

  /**
   The sidebar of a user. `g` is what is reached from the returned groups through `children`: the navigation forest `f`
   cut on its first two levels, and so the promised forest exactly when nothing denied sits below them.
   */
  method VisibleNavigation(panel: Panel, policy: Policy, locale: Locale)
    returns (shown: seq<NavGroup>, ghost made: seq<NavItem>, ghost result: seq<NavGroup>, ghost f: Forest<NavItem>, ghost g: Forest<NavItem>)
    ensures EntriesOf(made) == Declared(panel, locale) && NoDuplicates(made)
    ensures Listing(ParentsIn(made), ChildLists(made, result))
    ensures HoldsEachOnce(ParentsIn(made), ChildLists(made, result), f)
    ensures Collation(locale) ==> InSidebarOrder(locale, made, result) && TiesAsDeclared(locale, made, result)
    ensures Collation(locale) ==> ShownInOrder(locale, shown)
    ensures Grown(ChildLists(Order(g), shown), g, None)
    ensures EntryForest(g) == EntryForest(Shown(MayOf(panel, policy), f))
    ensures EntryForest(g) == EntryForest(Permitted(MayOf(panel, policy), f)) <==>
            AllMay(MayOf(panel, policy), BelowSecond(MayOf(panel, policy), f))
    ensures var kept := KeptGroups(MayOf(panel, policy), result);
            && InTheirGroups(result) && |shown| == |kept|
            && forall i :: 0 <= i < |shown| ==>
                             shown[i].group == kept[i].group && SameEntries(kept[i].items, shown[i].items) && shown[i].items != []
  {
    hide *;
    var may := MayOf(panel, policy);
    var groups: seq<NavGroup>;
    groups, made, f := Navigation.Navigation(panel, locale);
    result := groups;
    ghost var kids := ChildLists(made, result);
    NavigationStands(made, result, f);
    shown := FilterGroups(panel, policy, groups, kids);
    FlatStandFor(may, kids, KeptGroups(may, groups), shown);
    forall i | 0 <= i < |shown| ensures SameEntries(KeptGroups(may, groups)[i].items, shown[i].items) {
      StandForEntries(may, kids, KeptGroups(may, groups)[i].items, shown[i].items);
    }
    KeptGroupsRoots(may, groups);
    if Collation(locale) {
      ShownKeepsOrder(locale, may, made, result, shown);
    }
    NavigationStands(made, result, f);
    g := WithRoots(may, f, RootsOf(shown));
    Shows(made, result, may, f, shown);
    SeenAsPromisedIff(may, f);
  }

  lemma Shows(made: seq<NavItem>, result: seq<NavGroup>, may: May, f: Forest<NavItem>, shown: seq<NavGroup>)
    requires HoldsEachOnce(ParentsIn(made), ChildLists(made, result), f)
    requires AllStandFor(may, ChildLists(made, result), Kept(may, Roots(f)), RootsOf(shown))
    ensures var g := WithRoots(may, f, RootsOf(shown));
            Grown(ChildLists(Order(g), shown), g, None) && EntryForest(g) == EntryForest(Shown(may, f))
  {
    hide *;
    var ys := RootsOf(shown);
    StandForEntries(may, ChildLists(made, result), Kept(may, Roots(f)), ys);
    NavigationStands(made, result, f);
    WithRootsRoots(may, f, ys);
    WithRootsEntries(may, f, ys);
    var g := WithRoots(may, f, ys);
    ListsStand(Order(g), shown);
    WithRootsGrown(may, ChildLists(made, result), ChildLists(Order(g), shown), f, ys);
    GrownFromParts(ChildLists(Order(g), shown), g, Order(g), shown);
  }

  lemma GrownFromParts(kids: Kids<NavItem>, g: Forest<NavItem>, items: seq<NavItem>, shown: seq<NavGroup>)
    requires kids == ChildLists(items, shown) && Roots(g) == RootsOf(shown) && GrownBelow(kids, g)
    ensures Grown(kids, g, None)
  {
  }

  // ---------------------------------------------------------------- three levels

  function Nested(caption: string, slug: string, parent: Option<string>): Resource {
    Resource(caption, slug, "/" + slug, 0, parent, false, None, None)
  }

  /** Three resources, each but the first under the one before. */
  function ThreeDeep(clusters: nat -> Cluster): Panel {
    Panel("", [Nested("A", "a", None), Nested("B", "b", Some("A")), Nested("C", "c", Some("B"))], [], [], [], clusters)
  }

  /** Everything may be seen but the third. */
  function AllButThird(): Policy {
    Policy((r: Resource) => Some(r.slug != "c"), (ability: Option<string>) => true)
  }

  lemma DeclaredThree(clusters: nat -> Cluster, locale: Locale)
    ensures Declared(ThreeDeep(clusters), locale)
            == [ResourceEntry(Nested("A", "a", None)), ResourceEntry(Nested("B", "b", Some("A"))), ResourceEntry(Nested("C", "c", Some("B")))]
  {
    var a, b, c := Nested("A", "a", None), Nested("B", "b", Some("A")), Nested("C", "c", Some("B"));
    var es := [ResourceEntry(a), ResourceEntry(b), ResourceEntry(c)];
    ThreeEntries(clusters);
    assert OwnEntries(ThreeDeep(clusters)) == es;
    hide ResourceEntries, OwnEntries;
    assert es[..1][..0] == [];
    assert ClusterOrder(es[..1]) == ClusterOrder(es[..1][..0]) == [];
    assert es[..2][..1] == es[..1];
    assert ClusterOrder(es[..2]) == ClusterOrder(es[..2][..1]);
    assert ClusterOrder(es) == ClusterOrder(es[..2]);
  }

  lemma ThreeEntries(clusters: nat -> Cluster)
    ensures ResourceEntries(ThreeDeep(clusters).resources)
            == [ResourceEntry(Nested("A", "a", None)), ResourceEntry(Nested("B", "b", Some("A"))), ResourceEntry(Nested("C", "c", Some("B")))]
  {
    var a, b, c := Nested("A", "a", None), Nested("B", "b", Some("A")), Nested("C", "c", Some("B"));
    assert [a, b, c][..2] == [a, b] && [a, b][..1] == [a] && [a][..0] == [];
    assert ResourceEntries([a]) == [ResourceEntry(a)];
    assert ResourceEntries([a, b]) == [ResourceEntry(a), ResourceEntry(b)];
  }

  lemma ThirdIsDenied(clusters: nat -> Cluster)
    ensures var may := MayOf(ThreeDeep(clusters), AllButThird());
            && may(ResourceEntry(Nested("A", "a", None))) && may(ResourceEntry(Nested("B", "b", Some("A"))))
            && !may(ResourceEntry(Nested("C", "c", Some("B"))))
  {
    var rs := ThreeDeep(clusters).resources;
    assert rs[..2][..1] == [rs[0]] && rs[..2] == [rs[0], rs[1]];
    assert ResourceBySlug(rs, "c") == Some(rs[2]);
    assert ResourceBySlug(rs, "b") == ResourceBySlug(rs[..2], "b") == Some(rs[1]);
    assert ResourceBySlug(rs, "a") == ResourceBySlug(rs[..2], "a") == ResourceBySlug(rs[..2][..1], "a") == Some(rs[0]);
  }

  /** The three items of that panel. */
  ghost predicate Three(a: NavItem, b: NavItem, c: NavItem) {
    && a.entry == ResourceEntry(Nested("A", "a", None)) && b.entry == ResourceEntry(Nested("B", "b", Some("A")))
    && c.entry == ResourceEntry(Nested("C", "c", Some("B")))
  }

  lemma ThreeParents(a: NavItem, b: NavItem, c: NavItem)
    requires Three(a, b, c)
    ensures var made := [a, b, c];
            ParentIn(made, a) == None && ParentIn(made, b) == Some(a) && ParentIn(made, c) == Some(b)
  {
    ThreeTogether(a, b, c);
    ThreeNest(a, b, c);
    hide ItemsAt, NestParent;
  }

  lemma ThreeTogether(a: NavItem, b: NavItem, c: NavItem)
    requires Three(a, b, c)
    ensures ItemsAt([a, b, c], InGroup(None)) == [a, b, c]
  {
    OneMore([], a, InGroup(None));
    OneMore([a], b, InGroup(None));
    OneMore([a, b], c, InGroup(None));
    assert [] + [a] == [a] && [a] + [b] == [a, b] && [a, b] + [c] == [a, b, c];
  }

  lemma ThreeNest(a: NavItem, b: NavItem, c: NavItem)
    requires Three(a, b, c)
    ensures var made := [a, b, c];
            NestParent(made, a) == None && NestParent(made, b) == Some(a) && NestParent(made, c) == Some(b)
  {
    var made := [a, b, c];
    assert made[..2] == [a, b] && [a, b][..1] == [a];
    assert LastCaptioned([a], "A") == Some(a);
    assert LastCaptioned([a, b], "A") == Some(a) && LastCaptioned([a, b], "B") == Some(b);
    assert LastCaptioned(made, "B") == Some(b) && LastCaptioned(made, "A") == Some(a);
  }

  /** A list without duplicates of exactly the children of `p`. */
  lemma OnlyChild(made: seq<NavItem>, kids: Kids<NavItem>, p: Option<NavItem>, x: NavItem)
    requires Listing(ParentsIn(made), kids) && x in made && ParentIn(made, x) == p
    requires forall j :: 0 <= j < |made| && ParentIn(made, made[j]) == p ==> made[j] == x
    ensures Listed(kids, p) == [x]
  {
    hide *;
    var list := Listed(kids, p);
    forall i | 0 <= i < |list| ensures list[i] == x {
      var j := ListedChild(made, kids, p, i);
    }
    ChildListed(made, kids, p, x);
    JustOne(list, x);
  }

  lemma ChildListed(made: seq<NavItem>, kids: Kids<NavItem>, p: Option<NavItem>, x: NavItem)
    requires Listing(ParentsIn(made), kids) && x in made && ParentIn(made, x) == p
    ensures x in Listed(kids, p) && NoDuplicates(Listed(kids, p))
  {
    assert x in ParentsIn(made);
    ListedUnder(ParentsIn(made), kids, p);
  }

  lemma JustOne(list: seq<NavItem>, x: NavItem)
    requires NoDuplicates(list) && x in list && forall i :: 0 <= i < |list| ==> list[i] == x
    ensures list == [x]
  {
    hide NoDuplicates;
    var init := list[..|list| - 1];
    if init != [] {
      AllSame(init, x);
      LastIsNew(list);
    }
  }

  lemma AllSame(s: seq<NavItem>, x: NavItem)
    requires s != [] && forall i :: 0 <= i < |s| ==> s[i] == x
    ensures x in s
  {
    assert s[0] == x;
  }

  lemma ListedChild(made: seq<NavItem>, kids: Kids<NavItem>, p: Option<NavItem>, i: nat) returns (j: nat)
    requires Listing(ParentsIn(made), kids) && i < |Listed(kids, p)|
    ensures j < |made| && made[j] == Listed(kids, p)[i] && ParentIn(made, made[j]) == p
  {
    var k := Listed(kids, p)[i];
    assert k in Listed(kids, p) && k in ParentsIn(made);
    j :| 0 <= j < |made| && made[j] == k;
  }

  lemma NoChild(made: seq<NavItem>, kids: Kids<NavItem>, p: Option<NavItem>)
    requires Listing(ParentsIn(made), kids) && forall j :: 0 <= j < |made| ==> ParentIn(made, made[j]) != p
    ensures Listed(kids, p) == []
  {
    if Listed(kids, p) != [] {
      var j := ListedChild(made, kids, p, 0);
    }
  }

  /** The only forest there is over these three. */
  lemma ThreeDeepForest(kids: Kids<NavItem>, f: Forest<NavItem>, a: NavItem, b: NavItem, c: NavItem)
    requires Three(a, b, c) && Listing(ParentsIn([a, b, c]), kids) && Grown(kids, f, None)
    ensures f == Node(a, Node(b, Node(c, Empty, Empty), Empty), Empty)
  {
    ListsOfThree(kids, a, b, c);
    hide *;
    GrownRoots(kids, f, None);
    OneTree(f, a);
    GrownTree(kids, f);
    OneTree(f.kids, b);
    GrownTree(kids, f.kids);
    OneTree(f.kids.kids, c);
    GrownTree(kids, f.kids.kids);
    NoTree(f.kids.kids.kids);
  }

  lemma GrownRoots(kids: Kids<NavItem>, f: Forest<NavItem>, p: Option<NavItem>)
    requires Grown(kids, f, p)
    ensures Roots(f) == Listed(kids, p) && GrownBelow(kids, f)
  {
  }

  lemma GrownTree(kids: Kids<NavItem>, f: Forest<NavItem>)
    requires GrownBelow(kids, f) && f.Node?
    ensures Roots(f.kids) == Listed(kids, Some(f.item)) && GrownBelow(kids, f.kids)
  {
  }

  lemma ListsOfThree(kids: Kids<NavItem>, a: NavItem, b: NavItem, c: NavItem)
    requires Three(a, b, c) && Listing(ParentsIn([a, b, c]), kids)
    ensures Listed(kids, None) == [a] && Listed(kids, Some(a)) == [b] && Listed(kids, Some(b)) == [c] && Listed(kids, Some(c)) == []
  {
    var made := [a, b, c];
    ThreeParents(a, b, c);
    assert a != b && b != c && a != c && a in made && b in made && c in made;
    hide ParentIn, Listing, Listed, ParentsIn;
    OnlyChild(made, kids, None, a);
    OnlyChild(made, kids, Some(a), b);
    OnlyChild(made, kids, Some(b), c);
    NoChild(made, kids, Some(c));
  }

  lemma OneTree(f: Forest<NavItem>, x: NavItem)
    requires Roots(f) == [x]
    ensures f.Node? && f.item == x && f.rest == Empty
  {
    RootCount(f);
    RootCount(f.rest);
  }

  lemma NoTree(f: Forest<NavItem>)
    requires Roots(f) == []
    ensures f == Empty
  {
    RootCount(f);
  }

  lemma RootCount(f: Forest<NavItem>)
    ensures |Roots(f)| == if f.Node? then 1 + |Roots(f.rest)| else 0
    ensures f.Node? ==> Roots(f)[0] == f.item
  {
  }

  lemma ThirdIsShown(may: May, g: Forest<NavItem>, a: NavItem, b: NavItem, c: NavItem)
    requires may(a.entry) && may(b.entry)
    requires EntryForest(g) == EntryForest(Shown(may, Node(a, Node(b, Node(c, Empty, Empty), Empty), Empty)))
    ensures EntriesOf(Order(g)) == [a.entry, b.entry, c.entry]
  {
    var third := Node(c, Empty, Empty);
    var second := Node(b, third, Empty);
    assert Cut(may, second) == second;
    assert Order<NavItem>(Empty) == [];
    assert Order(third) == [c] + Order<NavItem>(Empty) + Order<NavItem>(Empty) == [c];
    assert Order(second) == [b] + Order(third) + Order<NavItem>(Empty) == [b, c];
    assert Order(Node(a, second, Empty)) == [a] + Order(second) + Order<NavItem>(Empty) == [a, b, c];
    EntriesInOrder(g);
    EntriesInOrder(Node(a, second, Empty));
  }

  /** Labels do nest three deep, and then a denied entry on the third level is on show. */
  method DeniedGrandchildIsShown(clusters: nat -> Cluster, locale: Locale) returns (shown: seq<NavGroup>, ghost g: Forest<NavItem>)
    ensures Grown(ChildLists(Order(g), shown), g, None)
    ensures |Order(g)| == 3 && !Allowed(ThreeDeep(clusters), AllButThird(), Order(g)[2].entry)
  {
    hide *;
    var panel, policy := ThreeDeep(clusters), AllButThird();
    ghost var made, result, f;
    shown, made, result, f, g := VisibleNavigation(panel, policy, locale);
    DeclaredThree(clusters, locale);
    ThirdIsDenied(clusters);
    ThirdShownOf(clusters, locale, made, ChildLists(made, result), f, g);
  }

  lemma ThirdShownOf(clusters: nat -> Cluster, locale: Locale, made: seq<NavItem>, kids: Kids<NavItem>, f: Forest<NavItem>, g: Forest<NavItem>)
    requires EntriesOf(made) == Declared(ThreeDeep(clusters), locale)
    requires Listing(ParentsIn(made), kids) && HoldsEachOnce(ParentsIn(made), kids, f)
    requires EntryForest(g) == EntryForest(Shown(MayOf(ThreeDeep(clusters), AllButThird()), f))
    ensures |Order(g)| == 3 && !Allowed(ThreeDeep(clusters), AllButThird(), Order(g)[2].entry)
  {
    DeclaredThree(clusters, locale);
    ThirdIsDenied(clusters);
    hide Declared, Allowed, Shown, EntryForest, Listing;
    assert |EntriesOf(made)| == |made| == 3;
    var a, b, c := made[0], made[1], made[2];
    assert EntriesOf(made)[0] == a.entry && EntriesOf(made)[1] == b.entry && EntriesOf(made)[2] == c.entry;
    assert made == [a, b, c];
    ThreeDeepForest(kids, f, a, b, c);
    ThirdIsShown(MayOf(ThreeDeep(clusters), AllButThird()), g, a, b, c);
    assert |EntriesOf(Order(g))| == |Order(g)| && EntriesOf(Order(g))[2] == Order(g)[2].entry;
  }
}
