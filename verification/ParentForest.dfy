/**
 Parent pointers and the forest they describe.

 `par` gives every key its parent, or `None` for a top-level key. `kids` lists the children of each key, and
 of the top level, in some order. A forest is `Grown` from `kids` when every level of it is exactly the
 listing of its parent. Such a forest holds each key whose parent chain ends, once, and no other key.
 */
module ParentForest {
  import opened Wrappers

  /** The first tree's root, its children, and the trees after it. */
  datatype Forest<K> = Empty | Node(item: K, kids: Forest<K>, rest: Forest<K>)

  function Roots<K>(f: Forest<K>): seq<K> {
    match f
    case Empty => []
    case Node(k, _, rest) => [k] + Roots(rest)
  }

  /** Pre-order, every key with its depth. */
  function Flatten<K>(f: Forest<K>, depth: nat): seq<(K, nat)> {
    match f
    case Empty => []
    case Node(k, kids, rest) => [(k, depth)] + Flatten(kids, depth + 1) + Flatten(rest, depth)
  }

  function Order<K>(f: Forest<K>): seq<K> {
    match f
    case Empty => []
    case Node(k, kids, rest) => [k] + Order(kids) + Order(rest)
  }

  type Kids<!K(==)> = map<Option<K>, seq<K>>

  function Listed<K>(kids: Kids<K>, p: Option<K>): seq<K> {
    if p in kids then kids[p] else []
  }

  ghost predicate NoDuplicates<K>(s: seq<K>) {
    forall i, j :: 0 <= i < j < |s| ==> s[i] != s[j]
  }

  ghost predicate Closed<K>(par: map<K, Option<K>>) {
    forall k :: k in par && par[k].Some? ==> par[k].value in par
  }

  /** `kids` lists every key under its parent, once. */
  ghost predicate Listing<K>(par: map<K, Option<K>>, kids: Kids<K>) {
    && Closed(par)
    && (forall p :: p in kids ==> NoDuplicates(kids[p]))
    && (forall p, k :: p in kids && k in kids[p] ==> k in par && par[k] == p)
    && forall k :: k in par ==> k in Listed(kids, par[k])
  }

  /** All of `s` are children of `p`. */
  ghost predicate Under<K>(par: map<K, Option<K>>, s: seq<K>, p: Option<K>) {
    forall r :: r in s ==> r in par && par[r] == p
  }

  lemma ListedUnder<K>(par: map<K, Option<K>>, kids: Kids<K>, p: Option<K>)
    requires Listing(par, kids)
    ensures Under(par, Listed(kids, p), p) && NoDuplicates(Listed(kids, p))
  {
  }

  lemma ListedAll<K>(par: map<K, Option<K>>, kids: Kids<K>, k: K)
    requires Listing(par, kids) && k in par
    ensures k in Listed(kids, par[k]) && (par[k].Some? ==> par[k].value in par)
  {
  }

  ghost predicate GrownBelow<K>(kids: Kids<K>, f: Forest<K>) {
    f.Node? ==> Roots(f.kids) == Listed(kids, Some(f.item)) && GrownBelow(kids, f.kids) && GrownBelow(kids, f.rest)
  }

  ghost predicate Grown<K>(kids: Kids<K>, f: Forest<K>, p: Option<K>) {
    Roots(f) == Listed(kids, p) && GrownBelow(kids, f)
  }

  // ---------------------------------------------------------------- parent chains

  /** The `n`-th step up from `k`; `None` once the chain has ended. */
  ghost function Up<K>(par: map<K, Option<K>>, k: Option<K>, n: nat): Option<K> {
    if n == 0 then k
    else
      var below := Up(par, k, n - 1);
      if below.Some? && below.value in par then par[below.value] else None
  }

  ghost predicate Above<K>(par: map<K, Option<K>>, k: Option<K>, x: K) {
    exists n: nat :: Up(par, k, n) == Some(x)
  }

  ghost predicate Ends<K>(par: map<K, Option<K>>, k: Option<K>) {
    exists n: nat :: Up(par, k, n) == None
  }

  ghost predicate EntersCycle<K>(par: map<K, Option<K>>, k: Option<K>) {
    exists i: nat, j: nat :: i < j && Up(par, k, i).Some? && Up(par, k, i) == Up(par, k, j)
  }

  lemma {:induction false} UpUp<K>(par: map<K, Option<K>>, k: Option<K>, m: nat, n: nat)
    ensures Up(par, Up(par, k, m), n) == Up(par, k, m + n)
  {
    if n > 0 {
      UpUp(par, k, m, n - 1);
    }
  }

  lemma FirstStep<K>(par: map<K, Option<K>>, k: K, n: nat)
    requires k in par && n > 0
    ensures Up(par, Some(k), n) == Up(par, par[k], n - 1)
  {
    assert Up(par, Some(k), 0) == Some(k);
    assert Up(par, Some(k), 1) == par[k];
    UpUp(par, Some(k), 1, n - 1);
  }

  lemma EndedStaysEnded<K>(par: map<K, Option<K>>, k: Option<K>, m: nat, n: nat)
    requires m <= n && Up(par, k, m) == None
    ensures Up(par, k, n) == None
  {
    if m < n {
      EndedStaysEnded(par, k, m, n - 1);
    }
  }

  lemma {:induction false} LoopNeverEnds<K>(par: map<K, Option<K>>, k: Option<K>, n: nat, m: nat)
    requires n > 0 && k.Some? && Up(par, k, n) == k
    ensures Up(par, k, m).Some?
    decreases m
  {
    if m <= n {
      if Up(par, k, m) == None {
        EndedStaysEnded(par, k, m, n);
      }
    } else {
      LoopNeverEnds(par, k, n, m - n);
      UpUp(par, k, n, m - n);
    }
  }

  lemma NoLoopWhereEnds<K>(par: map<K, Option<K>>, k: Option<K>, n: nat)
    requires n > 0 && k.Some? && Ends(par, k)
    ensures Up(par, k, n) != k
  {
    if Up(par, k, n) == k {
      var m: nat :| Up(par, k, m) == None;
      LoopNeverEnds(par, k, n, m);
    }
  }

  lemma EndsAbove<K>(par: map<K, Option<K>>, k: Option<K>, n: nat)
    requires Ends(par, k)
    ensures Ends(par, Up(par, k, n))
  {
    var m: nat :| Up(par, k, m) == None;
    EndedStaysEnded(par, k, m, n + m);
    UpUp(par, k, n, m);
    assert Up(par, Up(par, k, n), m) == None;
  }

  lemma EndsBelow<K>(par: map<K, Option<K>>, k: K)
    requires k in par && Ends(par, par[k])
    ensures Ends(par, Some(k))
  {
    var m: nat :| Up(par, par[k], m) == None;
    assert Up(par, Some(k), 0) == Some(k);
    assert Up(par, Some(k), 1) == par[k];
    UpUp(par, Some(k), 1, m);
    assert Up(par, Some(k), 1 + m) == None;
  }

  /** Keys met on the first `n` steps of a chain. */
  ghost function Met<K>(par: map<K, Option<K>>, k: Option<K>, n: nat): set<K> {
    if n == 0 then {}
    else
      var u := Up(par, k, n - 1);
      Met(par, k, n - 1) + if u.Some? then {u.value} else {}
  }

  lemma {:induction false} MetKeys<K>(par: map<K, Option<K>>, k: Option<K>, n: nat)
    requires Closed(par) && (k.Some? ==> k.value in par)
    ensures Met(par, k, n) <= par.Keys
  {
    if n > 0 {
      ChainStaysIn(par, k, n - 1);
      MetKeys(par, k, n - 1);
    }
  }

  lemma {:induction false} MetBefore<K>(par: map<K, Option<K>>, k: Option<K>, n: nat, x: K) returns (i: nat)
    requires x in Met(par, k, n)
    ensures i < n && Up(par, k, i) == Some(x)
  {
    if Up(par, k, n - 1) == Some(x) {
      i := n - 1;
    } else {
      i := MetBefore(par, k, n - 1, x);
    }
  }

  lemma {:induction false} ChainStaysIn<K>(par: map<K, Option<K>>, k: Option<K>, n: nat)
    requires Closed(par) && (k.Some? ==> k.value in par)
    ensures Up(par, k, n).Some? ==> Up(par, k, n).value in par
  {
    if n > 0 {
      ChainStaysIn(par, k, n - 1);
    }
  }

  lemma {:induction false} LongChainRepeats<K>(par: map<K, Option<K>>, k: Option<K>, n: nat)
    requires Closed(par) && (k.Some? ==> k.value in par)
    requires Up(par, k, n).Some? && !EntersCycle(par, k)
    ensures |Met(par, k, n + 1)| == n + 1
  {
    var x := Up(par, k, n).value;
    assert Met(par, k, n + 1) == Met(par, k, n) + {x};
    if n > 0 {
      LongChainRepeats(par, k, n - 1);
      if x in Met(par, k, n) {
        var i := MetBefore(par, k, n, x);
      }
    }
  }

  /** A chain either ends or enters a cycle, and never both. */
  lemma EndsOrCycles<K>(par: map<K, Option<K>>, k: K)
    requires Closed(par) && k in par
    ensures Ends(par, Some(k)) <==> !EntersCycle(par, Some(k))
  {
    if EntersCycle(par, Some(k)) {
      var i: nat, j: nat :| i < j && Up(par, Some(k), i).Some? && Up(par, Some(k), i) == Up(par, Some(k), j);
      UpUp(par, Some(k), i, j - i);
      if Ends(par, Some(k)) {
        EndsAbove(par, Some(k), i);
        NoLoopWhereEnds(par, Up(par, Some(k), i), j - i);
      }
    } else if !Ends(par, Some(k)) {
      var n := |par.Keys|;
      assert Up(par, Some(k), n).Some?;
      LongChainRepeats(par, Some(k), n);
      MetKeys(par, Some(k), n + 1);
      Subset(Met(par, Some(k), n + 1), par.Keys);
    }
  }

  lemma {:induction false} Subset<K>(s: set<K>, t: set<K>)
    requires s <= t
    ensures |s| <= |t|
  {
    if s != {} {
      var x :| x in s;
      Subset(s - {x}, t - {x});
    }
  }

  // ---------------------------------------------------------------- what a grown forest holds

  lemma {:induction false} RootsInOrder<K>(f: Forest<K>, k: K)
    requires k in Roots(f)
    ensures k in Order(f)
  {
    if f.item != k {
      RootsInOrder(f.rest, k);
    }
  }

  /** Everything in a forest grown under `p` reaches `p` by going up. */
  lemma {:induction false} ReachesParent<K>(par: map<K, Option<K>>, kids: Kids<K>, f: Forest<K>, p: Option<K>, k: K) returns (n: nat)
    requires Listing(par, kids) && GrownBelow(kids, f)
    requires Under(par, Roots(f), p)
    requires k in Order(f)
    ensures k in par && Up(par, Some(k), n) == p && n > 0
    decreases f
  {
    hide Listing;
    if k == f.item {
      assert f.item in Roots(f);
      n := 1;
      assert Up(par, Some(k), 0) == Some(k);
    } else if k in Order(f.kids) {
      assert f.item in Roots(f);
      ListedUnder(par, kids, Some(f.item));
      n := ReachesParent(par, kids, f.kids, Some(f.item), k);
      n := n + 1;
    } else {
      n := ReachesParent(par, kids, f.rest, p, k);
    }
  }

  lemma {:induction false} ChildInOrder<K>(kids: Kids<K>, f: Forest<K>, x: K, k: K)
    requires GrownBelow(kids, f) && x in Order(f) && k in Listed(kids, Some(x))
    ensures k in Order(f)
    decreases f
  {
    if x == f.item {
      RootsInOrder(f.kids, k);
    } else if x in Order(f.kids) {
      ChildInOrder(kids, f.kids, x, k);
    } else {
      ChildInOrder(kids, f.rest, x, k);
    }
  }

  lemma HeldWithParent<K>(par: map<K, Option<K>>, kids: Kids<K>, f: Forest<K>, k: K)
    requires Listing(par, kids) && Grown(kids, f, None) && k in par
    requires par[k].Some? ==> par[k].value in Order(f)
    ensures k in Order(f)
  {
    ListedAll(par, kids, k);
    hide Listing;
    if par[k].None? {
      RootsInOrder(f, k);
    } else {
      ChildInOrder(kids, f, par[k].value, k);
    }
  }

  lemma {:induction false} EndingIsHeld<K>(par: map<K, Option<K>>, kids: Kids<K>, f: Forest<K>, k: K, n: nat)
    requires Listing(par, kids) && Grown(kids, f, None)
    requires k in par && Up(par, Some(k), n) == None
    ensures k in Order(f)
    decreases n
  {
    hide Listing, Grown, Order;
    assert n > 0;
    FirstStep(par, k, n);
    ListedAll(par, kids, k);
    hide *;
    if par[k].Some? {
      EndingIsHeld(par, kids, f, par[k].value, n - 1);
    }
    HeldWithParent(par, kids, f, k);
  }

  /** A forest grown from the top level holds exactly the keys whose parent chain ends. */
  lemma HeldIffEnds<K>(par: map<K, Option<K>>, kids: Kids<K>, f: Forest<K>, k: K)
    requires Listing(par, kids) && Grown(kids, f, None)
    ensures k in Order(f) <==> k in par && Ends(par, Some(k))
  {
    hide Listing;
    if k in Order(f) {
      ListedUnder(par, kids, None);
      var n := ReachesParent(par, kids, f, None, k);
    } else if k in par && Ends(par, Some(k)) {
      var n: nat :| Up(par, Some(k), n) == None;
      EndingIsHeld(par, kids, f, k, n);
    }
  }

  /** Two children of a parent whose chain ends are not above one another. */
  lemma SiblingsUnrelated<K>(par: map<K, Option<K>>, p: Option<K>, a: K, b: K, n: nat)
    requires a in par && b in par && par[a] == p && par[b] == p && Ends(par, p) && n > 0
    ensures Up(par, Some(a), n) != Some(b)
  {
    if Up(par, Some(a), n) == Some(b) {
      assert Up(par, Some(a), 0) == Some(a);
      assert Up(par, Some(a), 1) == p;
      UpUp(par, Some(a), 1, n - 1);
      assert Up(par, p, n - 1) == Some(b);
      if p == None {
        assert Up(par, p, 0) == None;
        EndedStaysEnded(par, p, 0, n - 1);
      } else {
        assert Up(par, p, n) == p;
        NoLoopWhereEnds(par, p, n);
      }
    }
  }

  /** Two distinct siblings share no descendant. */
  lemma SubtreesDisjoint<K>(par: map<K, Option<K>>, p: Option<K>, a: K, b: K, k: K, m: nat, n: nat)
    requires a in par && b in par && a != b && par[a] == p && par[b] == p && Ends(par, p)
    requires Up(par, Some(k), m) == Some(a)
    ensures Up(par, Some(k), n) != Some(b)
  {
    if Up(par, Some(k), n) == Some(b) {
      if m < n {
        UpUp(par, Some(k), m, n - m);
        SiblingsUnrelated(par, p, a, b, n - m);
      } else if n < m {
        UpUp(par, Some(k), n, m - n);
        SiblingsUnrelated(par, p, b, a, m - n);
      }
    }
  }

  lemma {:induction false} RootAbove<K>(par: map<K, Option<K>>, kids: Kids<K>, f: Forest<K>, p: Option<K>, k: K) returns (r: K, n: nat)
    requires Listing(par, kids) && GrownBelow(kids, f)
    requires Under(par, Roots(f), p)
    requires k in Order(f)
    ensures r in Roots(f) && Up(par, Some(k), n) == Some(r)
    decreases f
  {
    hide Listing;
    if k == f.item {
      r, n := k, 0;
    } else if k in Order(f.kids) {
      ListedUnder(par, kids, Some(f.item));
      r := f.item;
      n := ReachesParent(par, kids, f.kids, Some(f.item), k);
    } else {
      r, n := RootAbove(par, kids, f.rest, p, k);
    }
  }

  /** A grown forest holds no key twice. */
  lemma {:induction false} HeldOnce<K>(par: map<K, Option<K>>, kids: Kids<K>, f: Forest<K>, p: Option<K>)
    requires Listing(par, kids) && GrownBelow(kids, f) && NoDuplicates(Roots(f)) && Ends(par, p)
    requires Under(par, Roots(f), p)
    ensures NoDuplicates(Order(f))
    decreases f
  {
    hide Listing;
    if f.Node? {
      var a := f.item;
      assert a in Roots(f);
      assert Roots(f.rest) == Roots(f)[1..];
      ListedUnder(par, kids, Some(a));
      EndsBelow(par, a);
      HeldOnce(par, kids, f.kids, Some(a));
      HeldOnce(par, kids, f.rest, p);
      forall k | k in Order(f.kids) ensures k != a && k !in Order(f.rest) {
        var n := ReachesParent(par, kids, f.kids, Some(a), k);
        if k == a {
          NoLoopWhereEnds(par, Some(a), n);
        }
        if k in Order(f.rest) {
          var b, m := RootAbove(par, kids, f.rest, p, k);
          SubtreesDisjoint(par, p, a, b, k, n, m);
        }
      }
      if a in Order(f.rest) {
        var b, m := RootAbove(par, kids, f.rest, p, a);
        assert Up(par, Some(a), 0) == Some(a);
        SubtreesDisjoint(par, p, a, b, a, 0, m);
      }
      JoinWithoutDuplicates([a], Order(f.kids));
      JoinWithoutDuplicates([a] + Order(f.kids), Order(f.rest));
    }
  }

  lemma JoinWithoutDuplicates<K>(s: seq<K>, t: seq<K>)
    requires NoDuplicates(s) && NoDuplicates(t) && forall k :: k in s ==> k !in t
    ensures NoDuplicates(s + t)
  {
    forall i, j | 0 <= i < j < |s + t| ensures (s + t)[i] != (s + t)[j] {
      if i < |s| <= j {
        assert (s + t)[i] in s && (s + t)[j] in t;
      }
    }
  }

  lemma LastIsNew<K>(s: seq<K>)
    requires NoDuplicates(s) && s != []
    ensures s[|s| - 1] !in s[..|s| - 1] && NoDuplicates(s[..|s| - 1])
  {
    var init := s[..|s| - 1];
    assert forall i :: 0 <= i < |init| ==> init[i] == s[i];
  }

  /** Two sequences without duplicates and with the same elements are permutations of one another. */
  lemma {:induction false} SameElements<K>(s: seq<K>, t: seq<K>)
    requires NoDuplicates(s) && NoDuplicates(t) && forall k :: k in s <==> k in t
    ensures multiset(s) == multiset(t)
  {
    forall k ensures multiset(s)[k] == multiset(t)[k] {
      CountOnce(s, k);
      CountOnce(t, k);
    }
  }

  lemma {:induction false} CountOnce<K>(s: seq<K>, k: K)
    requires NoDuplicates(s)
    ensures multiset(s)[k] == if k in s then 1 else 0
  {
    if s != [] {
      var init := s[..|s| - 1];
      CountOnce(init, k);
      assert s == init + [s[|s| - 1]];
      assert multiset(s) == multiset(init) + multiset{s[|s| - 1]};
    }
  }

  lemma {:induction false} FlattenOrder<K>(f: Forest<K>, depth: nat)
    ensures |Flatten(f, depth)| == |Order(f)|
    ensures forall i :: 0 <= i < |Order(f)| ==> Flatten(f, depth)[i].0 == Order(f)[i]
  {
    if f.Node? {
      FlattenOrder(f.kids, depth + 1);
      FlattenOrder(f.rest, depth);
    }
  }

  /** In pre-order no entry is above the level the forest starts at, and those on it are its roots. */
  lemma {:induction false} LevelOf<K>(f: Forest<K>, depth: nat, i: nat)
    requires i < |Flatten(f, depth)|
    ensures Flatten(f, depth)[i].1 >= depth
    ensures Flatten(f, depth)[i].1 == depth ==> Flatten(f, depth)[i].0 in Roots(f)
  {
    var inner := Flatten(f.kids, depth + 1);
    if 0 < i <= |inner| {
      LevelOf(f.kids, depth + 1, i - 1);
    } else if i > |inner| {
      LevelOf(f.rest, depth, i - 1 - |inner|);
    }
  }

  /** The parent of entry `i` is entry `j`, one level up, and nothing between them is above `i`. */
  ghost predicate Hangs<K>(par: map<K, Option<K>>, out: seq<(K, nat)>, j: nat, i: nat)
    requires j < i < |out|
  {
    && out[i].0 in par && par[out[i].0] == Some(out[j].0) && out[i].1 == out[j].1 + 1
    && forall k :: j < k <= i ==> out[k].1 >= out[i].1
  }

  lemma HangsShifted<K>(par: map<K, Option<K>>, out: seq<(K, nat)>, before: seq<(K, nat)>, after: seq<(K, nat)>, j: nat, i: nat)
    requires j < i < |out| && Hangs(par, out, j, i)
    ensures Hangs(par, before + out + after, |before| + j, |before| + i)
  {
    var all := before + out + after;
    assert forall k :: 0 <= k < |out| ==> all[|before| + k] == out[k];
    forall k | |before| + j < k <= |before| + i ensures all[k].1 >= all[|before| + i].1 {
      assert all[k] == out[k - |before|];
    }
  }

  lemma HangsFromHead<K>(par: map<K, Option<K>>, kids: Kids<K>, f: Forest<K>, depth: nat, i: nat)
    requires Listing(par, kids) && GrownBelow(kids, f) && f.Node?
    requires 0 < i <= |Flatten(f.kids, depth + 1)| && Flatten(f, depth)[i].1 == depth + 1
    ensures Hangs(par, Flatten(f, depth), 0, i)
  {
    ListedUnder(par, kids, Some(f.item));
    hide Listing;
    var inner := Flatten(f.kids, depth + 1);
    LevelOf(f.kids, depth + 1, i - 1);
    forall k | 0 < k <= i ensures Flatten(f, depth)[k].1 >= depth + 1 {
      LevelOf(f.kids, depth + 1, k - 1);
      assert Flatten(f, depth)[k] == inner[k - 1];
    }
  }

  /** The entries of a forest: its first root, those below that root, those of the other trees. */
  lemma FlattenParts<K>(f: Forest<K>, depth: nat, i: nat)
    requires f.Node? && i < |Flatten(f, depth)|
    ensures var inner, tail := Flatten(f.kids, depth + 1), Flatten(f.rest, depth);
            && |Flatten(f, depth)| == 1 + |inner| + |tail|
            && Flatten(f, depth)[i] == if i == 0 then (f.item, depth) else if i <= |inner| then inner[i - 1] else tail[i - 1 - |inner|]
  {
  }

  lemma GrownParts<K>(kids: Kids<K>, f: Forest<K>, depth: nat, i: nat)
    requires GrownBelow(kids, f) && i < |Flatten(f, depth)|
    ensures f.Node? && GrownBelow(kids, f.kids) && GrownBelow(kids, f.rest)
  {
  }

  lemma HangsBelow<K>(par: map<K, Option<K>>, f: Forest<K>, depth: nat, j: nat, i: nat)
    requires f.Node? && j < i < |Flatten(f.kids, depth + 1)| && Hangs(par, Flatten(f.kids, depth + 1), j, i)
    ensures i + 1 < |Flatten(f, depth)| && Hangs(par, Flatten(f, depth), j + 1, i + 1)
  {
    HangsShifted(par, Flatten(f.kids, depth + 1), [(f.item, depth)], Flatten(f.rest, depth), j, i);
  }

  lemma HangsBeside<K>(par: map<K, Option<K>>, f: Forest<K>, depth: nat, j: nat, i: nat)
    requires f.Node? && j < i < |Flatten(f.rest, depth)| && Hangs(par, Flatten(f.rest, depth), j, i)
    ensures var skip := 1 + |Flatten(f.kids, depth + 1)|;
            skip + i < |Flatten(f, depth)| && Hangs(par, Flatten(f, depth), skip + j, skip + i)
  {
    var before := [(f.item, depth)] + Flatten(f.kids, depth + 1);
    HangsShifted(par, Flatten(f.rest, depth), before, [], j, i);
    assert before + Flatten(f.rest, depth) + [] == Flatten(f, depth);
  }

  /** Subtrees are contiguous: an entry below the first level hangs from an entry before it. */
  lemma {:induction false} ParentBefore<K>(par: map<K, Option<K>>, kids: Kids<K>, f: Forest<K>, depth: nat, i: nat) returns (j: nat)
    requires Listing(par, kids) && GrownBelow(kids, f)
    requires i < |Flatten(f, depth)| && Flatten(f, depth)[i].1 > depth
    ensures j < i && Hangs(par, Flatten(f, depth), j, i)
    decreases f
  {
    hide *;
    GrownParts(kids, f, depth, i);
    FlattenParts(f, depth, i);
    var inner := Flatten(f.kids, depth + 1);
    if i <= |inner| {
      LevelOf(f.kids, depth + 1, i - 1);
      if inner[i - 1].1 == depth + 1 {
        j := 0;
        HangsFromHead(par, kids, f, depth, i);
      } else {
        j := ParentBefore(par, kids, f.kids, depth + 1, i - 1);
        HangsBelow(par, f, depth, j, i - 1);
        j := j + 1;
      }
    } else {
      j := ParentBefore(par, kids, f.rest, depth, i - 1 - |inner|);
      HangsBeside(par, f, depth, j, i - 1 - |inner|);
      j := 1 + |inner| + j;
    }
  }

  /** `f`'s trees followed by `g`'s. */
  function Join<K>(f: Forest<K>, g: Forest<K>): Forest<K> {
    match f
    case Empty => g
    case Node(k, kids, rest) => Node(k, kids, Join(rest, g))
  }

  lemma Regroup<T>(a: seq<T>, b: seq<T>, c: seq<T>)
    ensures a + (b + c) == a + b + c
  {
  }

  lemma {:induction false} JoinedRoots<K>(f: Forest<K>, g: Forest<K>)
    ensures Roots(Join(f, g)) == Roots(f) + Roots(g)
  {
    if f.Node? {
      JoinedRoots(f.rest, g);
      Regroup([f.item], Roots(f.rest), Roots(g));
    } else {
      assert Roots(f) + Roots(g) == Roots(g);
    }
  }

  lemma {:induction false} JoinedOrder<K>(f: Forest<K>, g: Forest<K>)
    ensures Order(Join(f, g)) == Order(f) + Order(g)
  {
    if f.Node? {
      JoinedOrder(f.rest, g);
      Regroup([f.item] + Order(f.kids), Order(f.rest), Order(g));
    } else {
      assert Order(f) + Order(g) == Order(g);
    }
  }

  lemma {:induction false} JoinedFlat<K>(f: Forest<K>, g: Forest<K>, depth: nat)
    ensures Flatten(Join(f, g), depth) == Flatten(f, depth) + Flatten(g, depth)
  {
    if f.Node? {
      JoinedFlat(f.rest, g, depth);
      Regroup([(f.item, depth)] + Flatten(f.kids, depth + 1), Flatten(f.rest, depth), Flatten(g, depth));
    } else {
      assert Flatten(f, depth) + Flatten(g, depth) == Flatten(g, depth);
    }
  }

  lemma {:induction false} JoinedGrown<K>(kids: Kids<K>, f: Forest<K>, g: Forest<K>)
    requires GrownBelow(kids, f) && GrownBelow(kids, g)
    ensures GrownBelow(kids, Join(f, g))
  {
    if f.Node? {
      JoinedGrown(kids, f.rest, g);
    }
  }

  // ---------------------------------------------------------------- growing one

  /** The forest under `p`; keys outside `free` are its ancestors. */
  ghost function Grow<K>(par: map<K, Option<K>>, kids: Kids<K>, list: seq<K>, p: Option<K>, free: set<K>): (f: Forest<K>)
    requires Listing(par, kids) && Ends(par, p)
    requires Under(par, list, p)
    requires forall x :: x in par && x !in free ==> Above(par, p, x)
    ensures Roots(f) == list && GrownBelow(kids, f)
    decreases free, |list|
  {
    if list == [] then Empty
    else
      var k := list[0];
      KidsAreFree(par, kids, k, free);
      ListedUnder(par, kids, Some(k));
      Node(k, Grow(par, kids, Listed(kids, Some(k)), Some(k), free - {k}), Grow(par, kids, list[1..], p, free))
  }

  lemma KidsAreFree<K>(par: map<K, Option<K>>, kids: Kids<K>, k: K, free: set<K>)
    requires Listing(par, kids) && k in par && Ends(par, par[k])
    requires forall x :: x in par && x !in free ==> Above(par, par[k], x)
    ensures k in free && Ends(par, Some(k))
    ensures forall x :: x in par && x !in free - {k} ==> Above(par, Some(k), x)
  {
    EndsBelow(par, k);
    if Above(par, par[k], k) {
      var n: nat :| Up(par, par[k], n) == Some(k);
      FirstStep(par, k, n + 1);
      NoLoopWhereEnds(par, Some(k), n + 1);
    }
    hide Listing, Above, Ends;
    forall x | x in par && x !in free - {k} ensures Above(par, Some(k), x) {
      AboveChild(par, k, x);
    }
  }

  lemma AboveChild<K>(par: map<K, Option<K>>, k: K, x: K)
    requires k in par && (x == k || Above(par, par[k], x))
    ensures Above(par, Some(k), x)
  {
    if x == k {
      assert Up(par, Some(k), 0) == Some(x);
    } else {
      var n: nat :| Up(par, par[k], n) == Some(x);
      FirstStep(par, k, n + 1);
    }
  }

  /** Every listing grows a forest. */
  lemma ForestExists<K>(par: map<K, Option<K>>, kids: Kids<K>) returns (f: Forest<K>)
    requires Listing(par, kids)
    ensures Grown(kids, f, None)
  {
    assert Up(par, None, 0) == None;
    ListedUnder(par, kids, None);
    f := Grow(par, kids, Listed(kids, None), None, par.Keys);
  }
}
