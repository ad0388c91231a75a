/**
 `Resource.arrangeTree` of packages/admin/src/Resource.ts: rows under their parents, with depths.

 The arranged rows are the pre-order of the forest grown from the rows' parents, siblings in input order,
 followed at depth 0 by exactly the rows whose parent chain enters a cycle.
 */
module ArrangeTree {
  import opened ParentForest
  import opened Wrappers

  /** `parent` is the raw tree column, `None` for null; `data` stands for the other columns. */
  datatype Row = Row(id: string, parent: Option<string>, data: string)

  function Ids(rows: seq<Row>): set<string> {
    set r | r in rows :: r.id
  }

  /** What the source asks of a primary key. */
  ghost predicate Keyed(rows: seq<Row>) {
    && (forall i :: 0 <= i < |rows| ==> rows[i].id != "")
    && forall i, j :: 0 <= i < j < |rows| ==> rows[i].id != rows[j].id
  }

  /** A parent outside the rows is no parent; `""` is the key of the top level. */
  function ParentKey(ids: set<string>, row: Row): string {
    if row.parent.None? || row.parent.value !in ids then "" else row.parent.value
  }

  /** The rows of `some` listed under `key`, in order. */
  function ChildrenIn(some: seq<Row>, ids: set<string>, key: string): seq<Row> {
    if some == [] then []
    else
      var last := some[|some| - 1];
      ChildrenIn(some[..|some| - 1], ids, key) + if ParentKey(ids, last) == key then [last] else []
  }

  ghost function KeyOf(p: Option<Row>): string {
    if p.Some? then p.value.id else ""
  }

  ghost function ParentOf(rows: seq<Row>): map<Row, Option<Row>> {
    map r | r in rows :: ParentRow(rows, ParentKey(Ids(rows), r))
  }

  ghost function ParentRow(rows: seq<Row>, key: string): Option<Row> {
    if exists r :: r in rows && r.id == key then
      var r :| r in rows && r.id == key;
      Some(r)
    else None
  }

  ghost function KidsOf(rows: seq<Row>): Kids<Row> {
    map p | p in {None} + set r | r in rows :: Some(r) :: ChildrenIn(rows, Ids(rows), KeyOf(p))
  }

  lemma {:induction false} ChildrenAre(some: seq<Row>, ids: set<string>, key: string)
    ensures forall r :: r in ChildrenIn(some, ids, key) <==> r in some && ParentKey(ids, r) == key
  {
    if some != [] {
      ChildrenAre(some[..|some| - 1], ids, key);
      assert some == some[..|some| - 1] + [some[|some| - 1]];
    }
  }

  lemma {:induction false} ChildrenDistinct(some: seq<Row>, ids: set<string>, key: string)
    requires NoDuplicates(some)
    ensures NoDuplicates(ChildrenIn(some, ids, key))
  {
    if some != [] {
      var init, last := some[..|some| - 1], some[|some| - 1];
      ChildrenDistinct(init, ids, key);
      ChildrenAre(init, ids, key);
      LastIsNew(some);
      JoinWithoutDuplicates(ChildrenIn(init, ids, key), if ParentKey(ids, last) == key then [last] else []);
    }
  }

  lemma OneRowPerId(rows: seq<Row>, r: Row, q: Row)
    requires Keyed(rows) && r in rows && q in rows && r.id == q.id
    ensures r == q && r.id != ""
  {
  }

  lemma ChildrenOfRow(rows: seq<Row>, p: Option<Row>)
    requires Keyed(rows) && p in KidsOf(rows)
    ensures NoDuplicates(KidsOf(rows)[p])
    ensures forall r :: r in KidsOf(rows)[p] ==> r in ParentOf(rows) && ParentOf(rows)[r] == p
  {
    ChildrenDistinct(rows, Ids(rows), KeyOf(p));
    ChildrenAre(rows, Ids(rows), KeyOf(p));
    ParentRowIs(rows, p);
  }

  lemma RowIsListed(rows: seq<Row>, r: Row)
    requires Keyed(rows) && r in ParentOf(rows)
    ensures r in Listed(KidsOf(rows), ParentOf(rows)[r])
    ensures ParentOf(rows)[r].Some? ==> ParentOf(rows)[r].value in ParentOf(rows)
  {
    var p, ids := ParentOf(rows)[r], Ids(rows);
    ChildrenAre(rows, ids, KeyOf(p));
    if ParentKey(ids, r) != "" {
      assert exists q :: q in rows && q.id == ParentKey(ids, r);
    }
    assert p in KidsOf(rows) && KeyOf(p) == ParentKey(ids, r);
  }

  lemma RowsAreListed(rows: seq<Row>)
    requires Keyed(rows)
    ensures Listing(ParentOf(rows), KidsOf(rows))
  {
    hide ParentOf, KidsOf, Keyed, NoDuplicates, Listed;
    var par, kids := ParentOf(rows), KidsOf(rows);
    forall p | p in kids ensures NoDuplicates(kids[p]) && forall r :: r in kids[p] ==> r in par && par[r] == p {
      ChildrenOfRow(rows, p);
    }
    forall r | r in par ensures r in Listed(kids, par[r]) && (par[r].Some? ==> par[r].value in par) {
      RowIsListed(rows, r);
    }
  }

  lemma ParentRowIs(rows: seq<Row>, p: Option<Row>)
    requires Keyed(rows) && (p.Some? ==> p.value in rows)
    ensures ParentRow(rows, KeyOf(p)) == p
  {
    if p.Some? {
      assert p.value in rows && p.value.id == KeyOf(p);
      var q := ParentRow(rows, KeyOf(p));
      OneRowPerId(rows, q.value, p.value);
    }
  }

  // ---------------------------------------------------------------- the walk

  /** Every seen row hangs from a seen row or from the top level. */
  ghost predicate SeenFromAbove(rows: seq<Row>, seen: set<string>) {
    && seen <= Ids(rows)
    && forall r :: r in rows && r.id in seen ==> ParentKey(Ids(rows), r) == "" || ParentKey(Ids(rows), r) in seen
  }

  ghost predicate UnseenChildren(some: seq<Row>, ids: set<string>, key: string, seen: set<string>) {
    forall r :: r in some && ParentKey(ids, r) == key ==> r.id !in seen
  }

  /** Whatever became seen since `before` hangs from `key` or from something that became seen. */
  ghost predicate NewlySeen(rows: seq<Row>, before: set<string>, seen: set<string>, key: string) {
    forall r :: r in rows && r.id in seen - before ==>
                  ParentKey(Ids(rows), r) == key || ParentKey(Ids(rows), r) in seen - before
  }

  lemma NoChildren(ids: set<string>)
    ensures forall key :: ChildrenIn([], ids, key) == []
  {
  }

  lemma NextChild(rows: seq<Row>, i: nat, ids: set<string>)
    requires i < |rows|
    ensures forall key ::
              ChildrenIn(rows[..i + 1], ids, key) == ChildrenIn(rows[..i], ids, key) + if ParentKey(ids, rows[i]) == key then [rows[i]] else []
  {
    assert rows[..i + 1][..i] == rows[..i];
  }

  method IndexByParent(rows: seq<Row>, ids: set<string>) returns (byParent: map<string, seq<Row>>)
    ensures forall key :: (if key in byParent then byParent[key] else []) == ChildrenIn(rows, ids, key)
  {
    hide *;
    byParent := map[];
    NoChildren(ids);
    assert rows[..0] == [];
    for i := 0 to |rows|
      invariant forall key :: (if key in byParent then byParent[key] else []) == ChildrenIn(rows[..i], ids, key)
    {
      var parent := ParentKey(ids, rows[i]);
      NextChild(rows, i, ids);
      byParent := byParent[parent := (if parent in byParent then byParent[parent] else []) + [rows[i]]];
    }
    assert rows[..|rows|] == rows;
  }

  /** The state `walk` closes over. */
  class Arrangement {
    const rows: seq<Row>
    const ids: set<string>
    const byParent: map<string, seq<Row>>
    var out: seq<(Row, nat)>
    var seen: set<string>

    constructor (rows: seq<Row>)
      ensures this.rows == rows && Indexed()
      ensures out == [] && seen == {}
    {
      var index := IndexByParent(rows, Ids(rows));
      this.rows, ids, byParent, out, seen := rows, Ids(rows), index, [], {};
    }

    ghost predicate Indexed() {
      && ids == Ids(rows)
      && forall key :: Under(key) == ChildrenIn(rows, ids, key)
    }

    function Under(key: string): seq<Row> {
      if key in byParent then byParent[key] else []
    }

    lemma UnderIs(key: string)
      requires Indexed()
      ensures ids == Ids(rows) && Under(key) == ChildrenIn(rows, ids, key)
    {
    }

    method Walk(parent: string, depth: nat) returns (ghost f: Forest<Row>)
      requires Indexed() && Keyed(rows)
      requires parent == "" || parent in seen
      requires SeenFromAbove(rows, seen) && UnseenChildren(rows, ids, parent, seen)
      modifies this
      ensures Roots(f) == ChildrenIn(rows, ids, parent) && GrownBelow(KidsOf(rows), f)
      ensures out == old(out) + Flatten(f, depth)
      ensures seen == old(seen) + Ids(Order(f))
      ensures SeenFromAbove(rows, seen) && NewlySeen(rows, old(seen), seen, parent)
      decreases ids - seen
    {
      hide *;
      f := Empty;
      var list := Under(parent);
      NothingYet(rows, depth, parent, seen);
      UnderIs(parent);
      ListIs(rows, ids, parent, seen);
      assert list[..0] == [] && out + [] == out && seen + {} == seen;
      for i := 0 to |list|
        invariant Roots(f) == list[..i] && GrownBelow(KidsOf(rows), f)
        invariant out == old(out) + Flatten(f, depth)
        invariant seen == old(seen) + Ids(Order(f))
        invariant SeenFromAbove(rows, seen) && NewlySeen(rows, old(seen), seen, parent)
        invariant forall j :: i <= j < |list| ==> list[j].id !in seen
        invariant parent == "" || parent in old(seen)
      {
        var row := list[i];
        if row.id in seen {
          continue;
        }
        ghost var before := seen;
        EnterRow(rows, seen, row, parent);
        seen := seen + {row.id};
        out := out + [(row, depth)];
        ghost var below := Walk(row.id, depth + 1);
        Extend(rows, f, row, below, depth);
        forall j | i + 1 <= j < |list| ensures list[j].id !in seen {
          StaysUnseen(rows, before, seen, row, list[j], parent);
        }
        StillNewlySeen(rows, old(seen), before, seen, row, parent);
        Regroup(old(out), Flatten(f, depth), [(row, depth)]);
        Regroup(old(out), Flatten(f, depth) + [(row, depth)], Flatten(below, depth + 1));
        f := Join(f, Node(row, below, Empty));
        assert list[..i + 1] == list[..i] + [row];
      }
      assert list[..|list|] == list;
    }
  }

  lemma NothingYet(rows: seq<Row>, depth: nat, parent: string, seen: set<string>)
    ensures Roots<Row>(Empty) == [] && GrownBelow(KidsOf(rows), Empty)
    ensures Flatten<Row>(Empty, depth) == [] && Ids(Order(Empty)) == {}
    ensures NewlySeen(rows, seen, seen, parent)
  {
  }

  /** What `walk` iterates over: distinct rows, each hanging from `key`. */
  lemma ListIs(rows: seq<Row>, ids: set<string>, key: string, seen: set<string>)
    requires Keyed(rows) && UnseenChildren(rows, ids, key, seen)
    ensures var list := ChildrenIn(rows, ids, key);
            && (forall i :: 0 <= i < |list| ==> list[i] in rows && list[i].id !in seen && ParentKey(ids, list[i]) == key)
            && forall i, j :: 0 <= i < j < |list| ==> list[i] != list[j]
  {
    ChildrenAre(rows, ids, key);
    assert NoDuplicates(rows);
    ChildrenDistinct(rows, ids, key);
  }

  /** Nothing below an unseen row has been seen. */
  lemma EnterRow(rows: seq<Row>, seen: set<string>, row: Row, parent: string)
    requires Keyed(rows) && SeenFromAbove(rows, seen) && row in rows && row.id !in seen
    requires ParentKey(Ids(rows), row) == parent && (parent == "" || parent in seen)
    ensures SeenFromAbove(rows, seen + {row.id})
    ensures UnseenChildren(rows, Ids(rows), row.id, seen + {row.id})
    ensures row.id in Ids(rows)
  {
    forall r | r in rows && r.id in seen + {row.id}
      ensures ParentKey(Ids(rows), r) != row.id
      ensures ParentKey(Ids(rows), r) == "" || ParentKey(Ids(rows), r) in seen + {row.id}
    {
      if r.id == row.id {
        OneRowPerId(rows, r, row);
      }
    }
  }

  /** A row and the forest below it, put after the trees already there. */
  lemma Extend(rows: seq<Row>, f: Forest<Row>, row: Row, below: Forest<Row>, depth: nat)
    requires row in rows && Roots(below) == ChildrenIn(rows, Ids(rows), row.id)
    requires GrownBelow(KidsOf(rows), f) && GrownBelow(KidsOf(rows), below)
    ensures var g := Join(f, Node(row, below, Empty));
            && Roots(g) == Roots(f) + [row]
            && GrownBelow(KidsOf(rows), g)
            && Flatten(g, depth) == Flatten(f, depth) + [(row, depth)] + Flatten(below, depth + 1)
            && Ids(Order(g)) == Ids(Order(f)) + {row.id} + Ids(Order(below))
  {
    var tree := Node(row, below, Empty);
    SingleTree(rows, row, below, depth);
    JoinedRoots(f, tree);
    JoinedOrder(f, tree);
    JoinedFlat(f, tree, depth);
    JoinedGrown(KidsOf(rows), f, tree);
    hide *;
    Regroup(Flatten(f, depth), [(row, depth)], Flatten(below, depth + 1));
    GrowSeen(Order(f), row, Order(below));
  }

  lemma SingleTree(rows: seq<Row>, row: Row, below: Forest<Row>, depth: nat)
    requires row in rows && Roots(below) == ChildrenIn(rows, Ids(rows), row.id) && GrownBelow(KidsOf(rows), below)
    ensures var tree := Node(row, below, Empty);
            && Roots(tree) == [row] && GrownBelow(KidsOf(rows), tree)
            && Order(tree) == [row] + Order(below) && Flatten(tree, depth) == [(row, depth)] + Flatten(below, depth + 1)
  {
    assert Some(row) in KidsOf(rows);
  }

  lemma GrowSeen(a: seq<Row>, row: Row, b: seq<Row>)
    ensures Ids(a + ([row] + b)) == Ids(a) + {row.id} + Ids(b)
  {
    var all := a + ([row] + b);
    assert row in all;
    assert forall r :: r in all <==> r in a || r == row || r in b;
  }

  /** A later sibling cannot have been seen below an earlier one. */
  lemma StaysUnseen(rows: seq<Row>, before: set<string>, seen: set<string>, row: Row, later: Row, parent: string)
    requires Keyed(rows) && row in rows && later in rows && later != row
    requires ParentKey(Ids(rows), later) == parent && ParentKey(Ids(rows), row) == parent
    requires parent == "" || parent in before
    requires later.id !in before && row.id !in before && SeenFromAbove(rows, seen)
    requires NewlySeen(rows, before + {row.id}, seen, row.id)
    ensures later.id !in seen
  {
    if later.id == row.id {
      OneRowPerId(rows, later, row);
    }
    OneRowPerId(rows, row, row);
    assert "" !in Ids(rows);
  }

  lemma StillNewlySeen(rows: seq<Row>, start: set<string>, before: set<string>, seen: set<string>, row: Row, parent: string)
    requires Keyed(rows) && row in rows && ParentKey(Ids(rows), row) == parent
    requires row.id !in before && start <= before && before + {row.id} <= seen
    requires NewlySeen(rows, start, before, parent) && NewlySeen(rows, before + {row.id}, seen, row.id)
    ensures NewlySeen(rows, start, seen, parent)
  {
    forall r | r in rows && r.id in seen - start
      ensures ParentKey(Ids(rows), r) == parent || ParentKey(Ids(rows), r) in seen - start
    {
      if r.id == row.id {
        OneRowPerId(rows, r, row);
      }
    }
  }

  /** Rows that are not in the forest, at depth 0 and in input order. */
  function Leftover(rows: seq<Row>, arranged: set<string>): seq<(Row, nat)> {
    if rows == [] then []
    else
      var last := rows[|rows| - 1];
      Leftover(rows[..|rows| - 1], arranged) + if last.id in arranged then [] else [(last, 0)]
  }

  ghost predicate Arranged(rows: seq<Row>, f: Forest<Row>, out: seq<(Row, nat)>) {
    Grown(KidsOf(rows), f, None) && out == Flatten(f, 0) + Leftover(rows, Ids(Order(f)))
  }

  method Flat(rows: seq<Row>) returns (out: seq<(Row, nat)>)
    ensures |out| == |rows| && forall i :: 0 <= i < |rows| ==> out[i] == (rows[i], 0)
  {
    out := [];
    for i := 0 to |rows|
      invariant |out| == i && forall j :: 0 <= j < i ==> out[j] == (rows[j], 0)
    {
      out := out + [(rows[i], 0)];
    }
  }

  method KeptOut(rows: seq<Row>, seen: set<string>, walked: seq<(Row, nat)>) returns (out: seq<(Row, nat)>)
    ensures out == walked + Leftover(rows, seen)
  {
    out := walked;
    for i := 0 to |rows|
      invariant out == walked + Leftover(rows[..i], seen)
    {
      assert rows[..i + 1][..i] == rows[..i];
      if rows[i].id !in seen {
        out := out + [(rows[i], 0)];
      }
    }
    assert rows[..|rows|] == rows;
  }

  method Arrange(hasTree: bool, rows: seq<Row>) returns (out: seq<(Row, nat)>)
    requires Keyed(rows)
    ensures !hasTree ==> |out| == |rows| && forall i :: 0 <= i < |rows| ==> out[i] == (rows[i], 0)
    ensures hasTree ==> exists f :: Arranged(rows, f, out)
  {
    if !hasTree {
      out := Flat(rows);
      return;
    }
    var work := new Arrangement(rows);
    ghost var f := work.Walk("", 0);
    out := KeptOut(rows, work.seen, work.out);
    work.UnderIs("");
    hide *;
    ArrangedBy(rows, f, work.out, work.seen, out);
  }

  lemma ArrangedBy(rows: seq<Row>, f: Forest<Row>, walked: seq<(Row, nat)>, seen: set<string>, out: seq<(Row, nat)>)
    requires Roots(f) == ChildrenIn(rows, Ids(rows), "") && GrownBelow(KidsOf(rows), f)
    requires walked == [] + Flatten(f, 0) && seen == {} + Ids(Order(f)) && out == walked + Leftover(rows, seen)
    ensures Arranged(rows, f, out)
  {
    hide ChildrenIn, Flatten, Ids, Order, Leftover, KidsOf, Roots, GrownBelow;
    TopLevel(rows);
    GrownFromTop(KidsOf(rows), f);
    assert [] + Flatten(f, 0) == Flatten(f, 0) && {} + Ids(Order(f)) == Ids(Order(f));
  }

  lemma TopLevel(rows: seq<Row>)
    ensures None in KidsOf(rows) && KidsOf(rows)[None] == ChildrenIn(rows, Ids(rows), "")
  {
  }

  lemma GrownFromTop(kids: Kids<Row>, f: Forest<Row>)
    requires None in kids && Roots(f) == kids[None] && GrownBelow(kids, f)
    ensures Grown(kids, f, None)
  {
  }

  // ---------------------------------------------------------------- what that order is

  ghost function RowsOf(out: seq<(Row, nat)>): seq<Row> {
    seq(|out|, i requires 0 <= i < |out| => out[i].0)
  }

  lemma {:induction false} LeftoverRows(rows: seq<Row>, arranged: set<string>)
    requires NoDuplicates(rows)
    ensures forall r :: r in RowsOf(Leftover(rows, arranged)) <==> r in rows && r.id !in arranged
    ensures forall i :: 0 <= i < |Leftover(rows, arranged)| ==> Leftover(rows, arranged)[i].1 == 0
    ensures NoDuplicates(RowsOf(Leftover(rows, arranged)))
  {
    if rows != [] {
      var init, last := rows[..|rows| - 1], rows[|rows| - 1];
      LeftoverRows(init, arranged);
      var before, tail := Leftover(init, arranged), if last.id in arranged then [] else [last];
      assert RowsOf(Leftover(rows, arranged)) == RowsOf(before) + tail;
      assert rows == init + [last];
      LastIsNew(rows);
      JoinWithoutDuplicates(RowsOf(before), tail);
    }
  }

  /** Exactly the rows whose parent chain enters a cycle are left for the end. */
  lemma PlacedIff(rows: seq<Row>, f: Forest<Row>, r: Row)
    requires Keyed(rows) && Grown(KidsOf(rows), f, None) && r in rows
    ensures r in Order(f) <==> !EntersCycle(ParentOf(rows), Some(r))
    ensures r.id in Ids(Order(f)) <==> r in Order(f)
  {
    RowsAreListed(rows);
    HeldIffEnds(ParentOf(rows), KidsOf(rows), f, r);
    EndsOrCycles(ParentOf(rows), r);
    if r.id in Ids(Order(f)) {
      var q :| q in Order(f) && q.id == r.id;
      HeldIffEnds(ParentOf(rows), KidsOf(rows), f, q);
      OneRowPerId(rows, q, r);
    }
  }

  /** Every row is on screen once: the arrangement is a permutation of the rows. */
  lemma ArrangedIsPermutation(rows: seq<Row>, f: Forest<Row>, out: seq<(Row, nat)>)
    requires Keyed(rows) && Arranged(rows, f, out)
    ensures multiset(RowsOf(out)) == multiset(rows)
  {
    hide *;
    var rest := RowsOf(Leftover(rows, Ids(Order(f))));
    ArrangedParts(rows, f, out);
    PlacedOnce(rows, f);
    RestOnce(rows, f);
    PlacedOrLeft(rows, f);
    JoinWithoutDuplicates(Order(f), rest);
    SameElements(Order(f) + rest, rows);
  }

  /** The rows of the forest in order, then the others. */
  lemma ArrangedParts(rows: seq<Row>, f: Forest<Row>, out: seq<(Row, nat)>)
    requires Arranged(rows, f, out)
    ensures Grown(KidsOf(rows), f, None) && RowsOf(out) == Order(f) + RowsOf(Leftover(rows, Ids(Order(f))))
  {
    var tree, rest := Flatten(f, 0), Leftover(rows, Ids(Order(f)));
    assert Grown(KidsOf(rows), f, None) && out == tree + rest;
    hide *;
    RowsJoin(tree, rest);
    FlatRows(f);
  }

  lemma RowsJoin(a: seq<(Row, nat)>, b: seq<(Row, nat)>)
    ensures RowsOf(a + b) == RowsOf(a) + RowsOf(b)
  {
  }

  lemma FlatRows(f: Forest<Row>)
    ensures RowsOf(Flatten(f, 0)) == Order(f)
  {
    FlattenOrder(f, 0);
    hide Flatten, Order;
  }

  lemma RestOnce(rows: seq<Row>, f: Forest<Row>)
    requires NoDuplicates(rows)
    ensures NoDuplicates(RowsOf(Leftover(rows, Ids(Order(f)))))
  {
    hide *;
    LeftoverRows(rows, Ids(Order(f)));
  }

  lemma PlacedOnce(rows: seq<Row>, f: Forest<Row>)
    requires Keyed(rows) && Grown(KidsOf(rows), f, None)
    ensures NoDuplicates(Order(f)) && NoDuplicates(rows)
  {
    RowsAreListed(rows);
    ListedUnder(ParentOf(rows), KidsOf(rows), None);
    assert Up(ParentOf(rows), None, 0) == None;
    HeldOnce(ParentOf(rows), KidsOf(rows), f, None);
  }

  lemma PlacedOrLeft(rows: seq<Row>, f: Forest<Row>)
    requires Keyed(rows) && Grown(KidsOf(rows), f, None)
    ensures forall r :: r in Order(f) ==> r in rows && r !in RowsOf(Leftover(rows, Ids(Order(f))))
    ensures forall r :: r in rows <==> r in Order(f) + RowsOf(Leftover(rows, Ids(Order(f))))
  {
    RowsAreListed(rows);
    PlacedOnce(rows, f);
    LeftoverRows(rows, Ids(Order(f)));
    forall r | r in Order(f) ensures r in rows && r.id in Ids(Order(f)) {
      HeldIffEnds(ParentOf(rows), KidsOf(rows), f, r);
    }
    forall r | r in rows ensures r in Order(f) <==> r.id in Ids(Order(f)) {
      PlacedIff(rows, f, r);
    }
  }

  /** A row below the top level has its parent before it, one level up, with only its own subtree's depths between. */
  lemma RowFollowsParent(rows: seq<Row>, f: Forest<Row>, out: seq<(Row, nat)>, i: nat) returns (j: nat)
    requires Keyed(rows) && Arranged(rows, f, out)
    requires i < |out| && out[i].1 > 0
    ensures j < i && out[j].0.id == ParentKey(Ids(rows), out[i].0) && out[i].1 == out[j].1 + 1
    ensures forall k :: j < k <= i ==> out[k].1 >= out[i].1
  {
    RowsAreListed(rows);
    assert NoDuplicates(rows);
    LeftoverRows(rows, Ids(Order(f)));
    var tree := Flatten(f, 0);
    assert i < |tree|;
    j := ParentBefore(ParentOf(rows), KidsOf(rows), f, 0, i);
  }
}
