/** What `Array.prototype.sort` does with a comparator: a stable sort. `le(a, b)` is `compare(a, b) <= 0`. */
module StableSort {

  /** Puts `x` after everything it may stay behind. */
  function InsertLast<T>(le: (T, T) -> bool, s: seq<T>, x: T): (r: seq<T>)
    ensures |r| == |s| + 1
  {
    if s == [] || le(s[|s| - 1], x) then s + [x]
    else InsertLast(le, s[..|s| - 1], x) + [s[|s| - 1]]
  }

  function SortedBy<T>(le: (T, T) -> bool, s: seq<T>): (r: seq<T>)
    ensures |r| == |s|
  {
    if s == [] then [] else InsertLast(le, SortedBy(le, s[..|s| - 1]), s[|s| - 1])
  }

  /** On the elements of `s` the comparator is total and transitive. */
  ghost predicate Ordered<T>(le: (T, T) -> bool, s: seq<T>) {
    && (forall a, b :: a in s && b in s ==> le(a, b) || le(b, a))
    && forall a, b, c :: a in s && b in s && c in s && le(a, b) && le(b, c) ==> le(a, c)
  }

  ghost predicate InOrder<T>(le: (T, T) -> bool, s: seq<T>) {
    forall i, j :: 0 <= i < j < |s| ==> le(s[i], s[j])
  }

  /** The elements that tie with `x`, in their order. */
  ghost function Ties<T>(le: (T, T) -> bool, s: seq<T>, x: T): seq<T> {
    if s == [] then []
    else
      var last := s[|s| - 1];
      Ties(le, s[..|s| - 1], x) + if le(x, last) && le(last, x) then [last] else []
  }

  lemma {:induction false} InsertKeeps<T>(le: (T, T) -> bool, s: seq<T>, x: T)
    ensures multiset(InsertLast(le, s, x)) == multiset(s) + multiset{x}
  {
    if s != [] && !le(s[|s| - 1], x) {
      InsertKeeps(le, s[..|s| - 1], x);
      assert s == s[..|s| - 1] + [s[|s| - 1]];
    }
  }

  /** Sorting permutes. */
  lemma {:induction false} SortKeeps<T>(le: (T, T) -> bool, s: seq<T>)
    ensures multiset(SortedBy(le, s)) == multiset(s)
  {
    if s != [] {
      SortKeeps(le, s[..|s| - 1]);
      InsertKeeps(le, SortedBy(le, s[..|s| - 1]), s[|s| - 1]);
      assert s == s[..|s| - 1] + [s[|s| - 1]];
    }
  }

  lemma SameMembers<T>(le: (T, T) -> bool, s: seq<T>)
    ensures forall x :: x in SortedBy(le, s) <==> x in s
  {
    SortKeeps(le, s);
    assert forall x :: x in s <==> x in multiset(s);
    assert forall x :: x in SortedBy(le, s) <==> x in multiset(SortedBy(le, s));
  }

  lemma InsertMembers<T>(le: (T, T) -> bool, s: seq<T>, x: T)
    ensures forall y :: y in InsertLast(le, s, x) ==> y in s || y == x
  {
    InsertKeeps(le, s, x);
    var r := InsertLast(le, s, x);
    forall y | y in r ensures y in s || y == x {
      assert y in multiset(r);
    }
  }

  lemma LastOfAll<T>(le: (T, T) -> bool, s: seq<T>, x: T)
    requires InOrder(le, s) && forall y :: y in s ==> le(y, x)
    ensures InOrder(le, s + [x])
  {
  }

  /** Every element of the result is one of the input, and conversely. */
  lemma SortedFrom<T>(le: (T, T) -> bool, s: seq<T>)
    ensures forall i :: 0 <= i < |s| ==> SortedBy(le, s)[i] in s
    ensures forall i :: 0 <= i < |s| ==> s[i] in SortedBy(le, s)
  {
    SortKeeps(le, s);
    var r := SortedBy(le, s);
    hide SortedBy;
    forall i | 0 <= i < |s| ensures r[i] in s && s[i] in r {
      assert r[i] in multiset(r) && s[i] in multiset(s);
    }
  }

  lemma {:induction false} InsertOrders<T>(le: (T, T) -> bool, s: seq<T>, x: T)
    requires Ordered(le, s + [x]) && InOrder(le, s)
    ensures InOrder(le, InsertLast(le, s, x))
  {
    if s == [] {
    } else {
      var init, last := s[..|s| - 1], s[|s| - 1];
      assert s == init + [last];
      assert x in s + [x] && last in s + [x] && forall a :: a in init ==> a in s + [x];
      forall a | a in init ensures le(a, last) {
        var i :| 0 <= i < |init| && init[i] == a;
        assert le(s[i], s[|s| - 1]);
      }
      if !le(last, x) {
        OrderedOnFewer(le, s + [x], init + [x]);
        assert InOrder(le, init);
        InsertOrders(le, init, x);
        InsertMembers(le, init, x);
        LastOfAll(le, InsertLast(le, init, x), last);
      } else {
        forall y | y in s ensures le(y, x) {
          assert y == last || y in init;
        }
        LastOfAll(le, s, x);
      }
    }
  }

  lemma OrderedOnFewer<T>(le: (T, T) -> bool, s: seq<T>, t: seq<T>)
    requires Ordered(le, s) && forall x :: x in t ==> x in s
    ensures Ordered(le, t)
  {
  }

  lemma StepMembers<T>(s: seq<T>, r: seq<T>)
    requires s != [] && forall x :: x in r <==> x in s[..|s| - 1]
    ensures forall x :: x in r + [s[|s| - 1]] ==> x in s
  {
    forall x | x in r + [s[|s| - 1]] ensures x in s {
      OldOrLast(s, r, x);
    }
  }

  lemma OldOrLast<T>(s: seq<T>, r: seq<T>, x: T)
    requires s != [] && x in r + [s[|s| - 1]]
    ensures x in r || x == s[|s| - 1]
  {
  }

  /** Sorting all but the last element brings in nothing new. */
  lemma MembersOfStep<T>(le: (T, T) -> bool, s: seq<T>)
    requires s != []
    ensures forall x :: x in SortedBy(le, s[..|s| - 1]) + [s[|s| - 1]] ==> x in s
  {
    SameMembers(le, s[..|s| - 1]);
    StepMembers(s, SortedBy(le, s[..|s| - 1]));
  }

  /** Under a total and transitive comparator the result is in order. */
  lemma {:induction false} SortOrders<T>(le: (T, T) -> bool, s: seq<T>)
    requires Ordered(le, s)
    ensures InOrder(le, SortedBy(le, s))
  {
    if s != [] {
      var init, last := s[..|s| - 1], s[|s| - 1];
      OrderedOnFewer(le, s, init);
      SortOrders(le, init);
      MembersOfStep(le, s);
      OrderedOnFewer(le, s, SortedBy(le, init) + [last]);
      InsertOrders(le, SortedBy(le, init), last);
    }
  }

  lemma TiesStep<T>(le: (T, T) -> bool, s: seq<T>, last: T, y: T)
    ensures Ties(le, s + [last], y) == Ties(le, s, y) + if le(y, last) && le(last, y) then [last] else []
  {
    assert (s + [last])[..|s|] == s;
  }

  lemma {:induction false} InsertTies<T>(le: (T, T) -> bool, s: seq<T>, x: T, y: T)
    requires Ordered(le, s + [x, y])
    ensures Ties(le, InsertLast(le, s, x), y) == Ties(le, s, y) + if le(y, x) && le(x, y) then [x] else []
  {
    hide Ties;
    if s == [] || le(s[|s| - 1], x) {
      TiesStep(le, s, x, y);
    } else {
      var init, last := s[..|s| - 1], s[|s| - 1];
      assert s == init + [last];
      assert last in s + [x, y] && x in s + [x, y] && y in s + [x, y];
      OrderedOnFewer(le, s + [x, y], init + [x, y]);
      InsertTies(le, init, x, y);
      TiesStep(le, InsertLast(le, init, x), last, y);
      TiesStep(le, init, last, y);
      NotBothTie(le, s + [x, y], x, y, last);
    }
  }

  /** Of two elements in strict order only one ties with `y`. */
  lemma NotBothTie<T>(le: (T, T) -> bool, s: seq<T>, x: T, y: T, last: T)
    requires Ordered(le, s) && x in s && y in s && last in s && !le(last, x)
    ensures !(le(y, x) && le(x, y) && le(y, last) && le(last, y))
  {
  }

  /** Elements that tie keep their order. */
  lemma {:induction false} SortIsStable<T>(le: (T, T) -> bool, s: seq<T>, y: T)
    requires Ordered(le, s + [y])
    ensures Ties(le, SortedBy(le, s), y) == Ties(le, s, y)
  {
    if s != [] {
      var init, last := s[..|s| - 1], s[|s| - 1];
      OrderedOnFewer(le, s + [y], init + [y]);
      SortIsStable(le, init, y);
      MembersOfStep(le, s);
      forall x | x in SortedBy(le, init) + [last, y] ensures x in s + [y] {
        assert x in SortedBy(le, init) + [last] || x == y;
      }
      OrderedOnFewer(le, s + [y], SortedBy(le, init) + [last, y]);
      InsertTies(le, SortedBy(le, init), last, y);
    }
  }

  /** Sorting and then reading off a key is reading off the keys and then sorting. */
  function Mapped<T, U>(f: T -> U, s: seq<T>): seq<U> {
    seq(|s|, i requires 0 <= i < |s| => f(s[i]))
  }

  lemma {:induction false} InsertMapped<T, U>(f: T -> U, le: (T, T) -> bool, on: (U, U) -> bool, s: seq<T>, x: T)
    requires forall a, b :: a in s + [x] && b in s + [x] ==> le(a, b) == on(f(a), f(b))
    ensures Mapped(f, InsertLast(le, s, x)) == InsertLast(on, Mapped(f, s), f(x))
  {
    if s != [] {
      var init, last := s[..|s| - 1], s[|s| - 1];
      assert s == init + [last];
      assert last in s + [x] && x in s + [x] && forall a :: a in init + [x] ==> a in s + [x];
      assert Mapped(f, s)[..|s| - 1] == Mapped(f, init);
      if !le(last, x) {
        InsertMapped(f, le, on, init, x);
        assert Mapped(f, InsertLast(le, s, x)) == Mapped(f, InsertLast(le, init, x)) + [f(last)];
      } else {
        assert Mapped(f, s + [x]) == Mapped(f, s) + [f(x)];
      }
    } else {
      assert Mapped(f, [x]) == [f(x)];
      assert s + [x] == [x];
    }
  }

  lemma {:induction false} SortMapped<T, U>(f: T -> U, le: (T, T) -> bool, on: (U, U) -> bool, s: seq<T>)
    requires forall a, b :: a in s && b in s ==> le(a, b) == on(f(a), f(b))
    ensures Mapped(f, SortedBy(le, s)) == SortedBy(on, Mapped(f, s))
  {
    if s != [] {
      var init, last := s[..|s| - 1], s[|s| - 1];
      SortMapped(f, le, on, init);
      MembersOfStep(le, s);
      assert Mapped(f, s)[..|s| - 1] == Mapped(f, init);
      InsertMapped(f, le, on, SortedBy(le, init), last);
    }
  }
}
