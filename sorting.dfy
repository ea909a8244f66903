/**
 * Python's `sorted(...)` and `sorted(set(...))` (and numpy's `unique(sort(...))`)
 * over any strict total order: the order is a parameter, instantiated with
 * `<` on numbers and with the code-point order on strings.
 */
module Sorting {
  import Text

  ghost predicate StrictTotalOrder<T(!new)>(lt: (T, T) -> bool)
  {
    && (forall a :: !lt(a, a))
    && (forall a, b, c :: lt(a, b) && lt(b, c) ==> lt(a, c))
    && (forall a, b :: a == b || lt(a, b) || lt(b, a))
  }

  /** Non-decreasing under `lt`. */
  predicate Sorted<T>(s: seq<T>, lt: (T, T) -> bool)
  {
    forall i, j :: 0 <= i < j < |s| ==> !lt(s[j], s[i])
  }

  /** Strictly increasing under `lt` (hence without duplicates). */
  predicate StrictlySorted<T>(s: seq<T>, lt: (T, T) -> bool)
  {
    forall i, j :: 0 <= i < j < |s| ==> lt(s[i], s[j])
  }

  function Elems<T>(s: seq<T>): set<T>
  {
    set x | x in s
  }

  lemma ElemsCons<T>(h: T, t: seq<T>)
    ensures Elems([h] + t) == {h} + Elems(t)
  {
  }

  /** Prepending an element that no later element is below keeps a sequence sorted. */
  lemma SortedCons<T>(h: T, t: seq<T>, lt: (T, T) -> bool)
    requires Sorted(t, lt) && forall k :: 0 <= k < |t| ==> !lt(t[k], h)
    ensures Sorted([h] + t, lt)
  {
    var r := [h] + t;
    forall i, j | 0 <= i < j < |r| ensures !lt(r[j], r[i]) {
      if i > 0 { assert r[i] == t[i - 1] && r[j] == t[j - 1]; }
    }
  }

  function Insert<T(!new)>(x: T, s: seq<T>, lt: (T, T) -> bool): (r: seq<T>)
    requires StrictTotalOrder(lt) && Sorted(s, lt)
    ensures Sorted(r, lt) && multiset(r) == multiset(s) + multiset{x}
  {
    if s == [] || !lt(s[0], x) then
      InsertFront(x, s, lt);
      [x] + s
    else
      var t := Insert(x, s[1..], lt);
      InsertBehind(x, s, t, lt);
      [s[0]] + t
  }

  lemma InsertFront<T(!new)>(x: T, s: seq<T>, lt: (T, T) -> bool)
    requires StrictTotalOrder(lt) && Sorted(s, lt)
    requires s == [] || !lt(s[0], x)
    ensures Sorted([x] + s, lt)
  {
    forall k | 0 <= k < |s| ensures !lt(s[k], x) {
      if k > 0 {
        assert !lt(s[k], s[0]);
      }
    }
    SortedCons(x, s, lt);
  }

  lemma InsertBehind<T(!new)>(x: T, s: seq<T>, t: seq<T>, lt: (T, T) -> bool)
    requires StrictTotalOrder(lt) && Sorted(s, lt) && s != [] && lt(s[0], x)
    requires Sorted(t, lt) && multiset(t) == multiset(s[1..]) + multiset{x}
    ensures Sorted([s[0]] + t, lt) && multiset([s[0]] + t) == multiset(s) + multiset{x}
  {
    assert s == [s[0]] + s[1..];
    forall k | 0 <= k < |t| ensures !lt(t[k], s[0]) {
      assert t[k] in multiset(t);
      if t[k] != x {
        assert t[k] in multiset(s[1..]);
        var j :| 0 <= j < |s[1..]| && s[1..][j] == t[k];
        assert s[j + 1] == t[k];
      }
    }
    SortedCons(s[0], t, lt);
  }

  /** `sorted(s)`: the ordered permutation of `s`. */
  function Sort<T(!new)>(s: seq<T>, lt: (T, T) -> bool): (r: seq<T>)
    requires StrictTotalOrder(lt)
    ensures Sorted(r, lt) && multiset(r) == multiset(s)
  {
    if s == [] then []
    else
      assert s == [s[0]] + s[1..];
      Insert(s[0], Sort(s[1..], lt), lt)
  }

  function InsertUnique<T(!new)>(x: T, s: seq<T>, lt: (T, T) -> bool): (r: seq<T>)
    requires StrictTotalOrder(lt) && StrictlySorted(s, lt)
    ensures StrictlySorted(r, lt) && Elems(r) == Elems(s) + {x}
  {
    if s == [] || lt(x, s[0]) then
      InsertUniqueFront(x, s, lt);
      [x] + s
    else if !lt(s[0], x) then
      assert x == s[0];
      s
    else
      var t := InsertUnique(x, s[1..], lt);
      InsertUniqueBehind(x, s, t, lt);
      [s[0]] + t
  }

  lemma StrictlySortedCons<T>(h: T, t: seq<T>, lt: (T, T) -> bool)
    requires StrictlySorted(t, lt) && forall k :: 0 <= k < |t| ==> lt(h, t[k])
    ensures StrictlySorted([h] + t, lt)
  {
    var r := [h] + t;
    forall i, j | 0 <= i < j < |r| ensures lt(r[i], r[j]) {
      if i > 0 { assert r[i] == t[i - 1] && r[j] == t[j - 1]; }
    }
  }

  lemma InsertUniqueFront<T(!new)>(x: T, s: seq<T>, lt: (T, T) -> bool)
    requires StrictTotalOrder(lt) && StrictlySorted(s, lt)
    requires s == [] || lt(x, s[0])
    ensures StrictlySorted([x] + s, lt) && Elems([x] + s) == Elems(s) + {x}
  {
    forall k | 0 <= k < |s| ensures lt(x, s[k]) {
      if k > 0 { assert lt(s[0], s[k]); }
    }
    StrictlySortedCons(x, s, lt);
  }

  lemma InsertUniqueBehind<T(!new)>(x: T, s: seq<T>, t: seq<T>, lt: (T, T) -> bool)
    requires StrictTotalOrder(lt) && StrictlySorted(s, lt) && s != [] && lt(s[0], x)
    requires StrictlySorted(t, lt) && Elems(t) == Elems(s[1..]) + {x}
    ensures StrictlySorted([s[0]] + t, lt) && Elems([s[0]] + t) == Elems(s) + {x}
  {
    assert s == [s[0]] + s[1..];
    ElemsCons(s[0], s[1..]);
    ElemsCons(s[0], t);
    forall k | 0 <= k < |t| ensures lt(s[0], t[k]) {
      assert t[k] in Elems(t);
      if t[k] != x {
        var j :| 0 <= j < |s[1..]| && s[1..][j] == t[k];
        assert s[j + 1] == t[k];
      }
    }
    StrictlySortedCons(s[0], t, lt);
  }

  /** `sorted(set(s))`: the distinct elements of `s`, in increasing order. */
  function SortedSet<T(!new)>(s: seq<T>, lt: (T, T) -> bool): (r: seq<T>)
    requires StrictTotalOrder(lt)
    ensures StrictlySorted(r, lt) && Elems(r) == Elems(s)
  {
    if s == [] then []
    else
      assert s == s[..|s| - 1] + [s[|s| - 1]];
      InsertUnique(s[|s| - 1], SortedSet(s[..|s| - 1], lt), lt)
  }

  /** Two strictly increasing sequences with the same elements are the same sequence. */
  lemma {:induction false} StrictlySortedUnique<T(!new)>(a: seq<T>, b: seq<T>, lt: (T, T) -> bool)
    requires StrictTotalOrder(lt)
    requires StrictlySorted(a, lt) && StrictlySorted(b, lt) && Elems(a) == Elems(b)
    ensures a == b
  {
    if a != [] && b != [] {
      assert a[0] in Elems(b) && b[0] in Elems(a);
      var i :| 0 <= i < |b| && b[i] == a[0];
      var j :| 0 <= j < |a| && a[j] == b[0];
      assert a[0] == b[0];
      assert a == [a[0]] + a[1..] && b == [b[0]] + b[1..];
      ElemsCons(a[0], a[1..]);
      ElemsCons(b[0], b[1..]);
      assert a[0] !in Elems(a[1..]) by {
        forall k | 0 <= k < |a[1..]| ensures a[1..][k] != a[0] {
          assert lt(a[0], a[k + 1]);
        }
      }
      assert b[0] !in Elems(b[1..]) by {
        forall k | 0 <= k < |b[1..]| ensures b[1..][k] != b[0] {
          assert lt(b[0], b[k + 1]);
        }
      }
      assert Elems(a[1..]) == Elems(a) - {a[0]};
      assert Elems(b[1..]) == Elems(b) - {b[0]};
      StrictlySortedUnique(a[1..], b[1..], lt);
    } else {
      EmptyElems(a);
      EmptyElems(b);
    }
  }

  lemma EmptyElems<T>(s: seq<T>)
    ensures Elems(s) == {} <==> s == []
  {
    if s != [] { assert s[0] in Elems(s); }
  }

  /** The first element of a non-decreasing sequence is below none of its elements. */
  lemma SortedHead<T(!new)>(a: seq<T>, lt: (T, T) -> bool, y: T)
    requires StrictTotalOrder(lt) && Sorted(a, lt) && a != [] && y in multiset(a)
    ensures !lt(y, a[0])
  {
    var i :| 0 <= i < |a| && a[i] == y;
  }

  /** Two non-decreasing permutations of each other are the same sequence. */
  lemma {:induction false} SortedUnique<T(!new)>(a: seq<T>, b: seq<T>, lt: (T, T) -> bool)
    requires StrictTotalOrder(lt)
    requires Sorted(a, lt) && Sorted(b, lt) && multiset(a) == multiset(b)
    ensures a == b
  {
    if a != [] && b != [] {
      SortedHead(a, lt, b[0]);
      SortedHead(b, lt, a[0]);
      assert a[0] == b[0];
      assert a == [a[0]] + a[1..] && b == [b[0]] + b[1..];
      assert multiset(a[1..]) == multiset(a) - multiset{a[0]};
      assert multiset(b[1..]) == multiset(b) - multiset{b[0]};
      SortedUnique(a[1..], b[1..], lt);
    } else {
      assert |a| == |multiset(a)| && |b| == |multiset(b)|;
    }
  }

  /** A strictly increasing sequence has no repeated element. */
  lemma StrictlySortedDistinct<T(!new)>(s: seq<T>, lt: (T, T) -> bool, i: int, j: int)
    requires StrictTotalOrder(lt) && StrictlySorted(s, lt)
    requires 0 <= i < |s| && 0 <= j < |s| && i != j
    ensures s[i] != s[j]
  {
    if i < j { assert lt(s[i], s[j]); } else { assert lt(s[j], s[i]); }
  }

  // ---------------------------------------------------------------- the orders used

  function IntLt(a: int, b: int): bool { a < b }

  function RealLt(a: real, b: real): bool { a < b }

  lemma IntLtIsStrictTotal()
    ensures StrictTotalOrder(IntLt)
  {
  }

  lemma RealLtIsStrictTotal()
    ensures StrictTotalOrder(RealLt)
  {
  }

  /** `sorted(s)` for a list of strings. */
  function SortStrings(s: seq<string>): (r: seq<string>)
    ensures Sorted(r, Text.StrLt) && multiset(r) == multiset(s)
  {
    StrLtIsStrictTotal();
    Sort(s, Text.StrLt)
  }

  /** `sorted` of strings is determined by its two properties: ordered, and a permutation. */
  lemma SortStringsCharacterized(s: seq<string>, t: seq<string>)
    requires Sorted(t, Text.StrLt) && multiset(s) == multiset(t)
    ensures SortStrings(s) == t
  {
    StrLtIsStrictTotal();
    SortedUnique(SortStrings(s), t, Text.StrLt);
  }

  /** `sorted(set(s))` for strings. */
  function SortedStringSet(s: seq<string>): (r: seq<string>)
    ensures StrictlySorted(r, Text.StrLt) && Elems(r) == Elems(s)
  {
    StrLtIsStrictTotal();
    SortedSet(s, Text.StrLt)
  }

  /** `sorted(set(s))` for integers. */
  function SortedIntSet(s: seq<int>): (r: seq<int>)
    ensures StrictlySorted(r, IntLt) && Elems(r) == Elems(s)
  {
    IntLtIsStrictTotal();
    SortedSet(s, IntLt)
  }

  /** `np.unique` of reals: strictly increasing, same values. */
  function SortedRealSet(s: seq<real>): (r: seq<real>)
    ensures forall i, j :: 0 <= i < j < |r| ==> r[i] < r[j]
    ensures forall x :: x in r <==> x in s
  {
    RealLtIsStrictTotal();
    var r := SortedSet(s, RealLt);
    assert forall x :: x in r <==> x in Elems(r);
    assert forall x :: x in s <==> x in Elems(s);
    r
  }

  /** Two strictly increasing real sequences with the same values are equal. */
  lemma IncreasingRealsUnique(a: seq<real>, b: seq<real>)
    requires forall i, j :: 0 <= i < j < |a| ==> a[i] < a[j]
    requires forall i, j :: 0 <= i < j < |b| ==> b[i] < b[j]
    requires forall x :: x in a <==> x in b
    ensures a == b
  {
    RealLtIsStrictTotal();
    assert StrictlySorted(a, RealLt) && StrictlySorted(b, RealLt);
    forall x ensures x in Elems(a) <==> x in Elems(b) {
      assert x in Elems(a) <==> x in a;
      assert x in Elems(b) <==> x in b;
    }
    StrictlySortedUnique(a, b, RealLt);
  }

  /** Python's string order is a strict total order, so `sorted` over strings is well defined. */
  lemma StrLtIsStrictTotal()
    ensures StrictTotalOrder(Text.StrLt)
  {
    forall a ensures !Text.StrLt(a, a) { Text.StrLtIrreflexive(a); }
    forall a, b, c | Text.StrLt(a, b) && Text.StrLt(b, c) ensures Text.StrLt(a, c) {
      Text.StrLtTransitive(a, b, c);
    }
    forall a, b ensures a == b || Text.StrLt(a, b) || Text.StrLt(b, a) { Text.StrLtTotal(a, b); }
  }
}
