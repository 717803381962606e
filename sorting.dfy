/** The stable sort behind `Array.prototype.sort` with a consistent
    comparator, given as the "comes no later than" relation `le`
    (`le(a, b)` is `compare(a, b) <= 0`). Insertion sort is the
    specification: it yields the one stable sorted permutation. */
module Sorting {
  import opened Sequences

  /** `le` is total and transitive, as a comparator must be for a well-defined sort. */
  ghost predicate TotalPreorder<T(!new)>(le: (T, T) -> bool) {
    && (forall a, b :: le(a, b) || le(b, a))
    && (forall a, b, c :: le(a, b) && le(b, c) ==> le(a, c))
  }

  predicate Sorted<T>(s: seq<T>, le: (T, T) -> bool) {
    forall i, j :: 0 <= i < j < |s| ==> le(s[i], s[j])
  }

  /** Places `x` in front of the first element it comes no later than. */
  function Insert<T>(x: T, s: seq<T>, le: (T, T) -> bool): (r: seq<T>)
    ensures |r| == |s| + 1
  {
    if s == [] || le(x, s[0]) then [x] + s
    else [s[0]] + Insert(x, s[1..], le)
  }

  function Sort<T>(s: seq<T>, le: (T, T) -> bool): (r: seq<T>)
    ensures |r| == |s|
  {
    if s == [] then []
    else Insert(s[0], Sort(s[1..], le), le)
  }

  /** Inserting adds exactly one occurrence of `x`. */
  lemma {:induction false} InsertPermutes<T>(x: T, s: seq<T>, le: (T, T) -> bool)
    ensures multiset(Insert(x, s, le)) == multiset(s) + multiset{x}
  {
    if s != [] && !le(x, s[0]) {
      InsertPermutes(x, s[1..], le);
      assert s == [s[0]] + s[1..];
    }
  }

  /** The sort's result is a permutation of its input. */
  lemma {:induction false} SortPermutes<T>(s: seq<T>, le: (T, T) -> bool)
    ensures multiset(Sort(s, le)) == multiset(s)
  {
    if s != [] {
      SortPermutes(s[1..], le);
      InsertPermutes(s[0], Sort(s[1..], le), le);
      assert s == [s[0]] + s[1..];
    }
  }

  /** Elements equivalent to `x` under `le` (the comparator returns 0). */
  function EquivalentTo<T>(le: (T, T) -> bool, x: T): T -> bool {
    (y: T) => le(x, y) && le(y, x)
  }

  lemma {:induction false} InsertSorted<T(!new)>(x: T, s: seq<T>, le: (T, T) -> bool)
    requires TotalPreorder(le) && Sorted(s, le)
    ensures Sorted(Insert(x, s, le), le)
  {
    if s != [] && !le(x, s[0]) {
      InsertSorted(x, s[1..], le);
      var r := Insert(x, s, le);
      InsertPermutes(x, s[1..], le);
      assert r == [s[0]] + Insert(x, s[1..], le);
      assert le(s[0], x);
      forall j | 1 <= j < |r|
        ensures le(s[0], r[j])
      {
        assert r[j] in multiset(r);
        assert r[j] == x || r[j] in multiset(s[1..]);
        if r[j] != x {
          var k :| 0 <= k < |s[1..]| && s[1..][k] == r[j];
          assert s[k + 1] == r[j];
        }
      }
    }
  }

  /** The sort's result is ordered by `le`. */
  lemma {:induction false} SortSorted<T(!new)>(s: seq<T>, le: (T, T) -> bool)
    requires TotalPreorder(le)
    ensures Sorted(Sort(s, le), le)
  {
    if s != [] {
      SortSorted(s[1..], le);
      InsertSorted(s[0], Sort(s[1..], le), le);
    }
  }

  /** Sorting an already ordered sequence leaves it as it is. */
  lemma {:induction false} SortOfSorted<T>(s: seq<T>, le: (T, T) -> bool)
    requires Sorted(s, le)
    ensures Sort(s, le) == s
  {
    if s != [] {
      assert Sorted(s[1..], le);
      SortOfSorted(s[1..], le);
      assert [s[0]] + s[1..] == s;
    }
  }

  lemma {:induction false} InsertKeepsEquivalentOrder<T(!new)>(x: T, y: T, t: seq<T>, le: (T, T) -> bool)
    requires TotalPreorder(le)
    ensures Filter(Insert(y, t, le), EquivalentTo(le, x))
         == (if EquivalentTo(le, x)(y) then [y] else []) + Filter(t, EquivalentTo(le, x))
  {
    var p := EquivalentTo(le, x);
    if t == [] || le(y, t[0]) {
      assert ([y] + t)[1..] == t;
    } else {
      InsertKeepsEquivalentOrder(x, y, t[1..], le);
      assert ([t[0]] + Insert(y, t[1..], le))[1..] == Insert(y, t[1..], le);
    }
  }

  /** Stability: the elements of each equivalence class come out in their input order. */
  lemma {:induction false} SortStable<T(!new)>(s: seq<T>, x: T, le: (T, T) -> bool)
    requires TotalPreorder(le)
    ensures Filter(Sort(s, le), EquivalentTo(le, x)) == Filter(s, EquivalentTo(le, x))
  {
    if s != [] {
      SortStable(s[1..], x, le);
      InsertKeepsEquivalentOrder(x, s[0], Sort(s[1..], le), le);
    }
  }

  /** Removing elements from an ordered sequence leaves it ordered. */
  lemma {:induction false} FilterSorted<T>(s: seq<T>, keep: T -> bool, le: (T, T) -> bool)
    requires Sorted(s, le)
    ensures Sorted(Filter(s, keep), le)
  {
    if s != [] {
      assert Sorted(s[1..], le);
      FilterSorted(s[1..], keep, le);
      var rest := Filter(s[1..], keep);
      FilterContents(s[1..], keep);
      forall j | 0 <= j < |rest|
        ensures le(s[0], rest[j])
      {
        assert rest[j] in s[1..];
        var k :| 0 <= k < |s[1..]| && s[1..][k] == rest[j];
        assert s[k + 1] == rest[j];
      }
    }
  }

  lemma InsertInFront<T>(x: T, t: seq<T>, le: (T, T) -> bool)
    requires t == [] || le(x, t[0])
    ensures Insert(x, t, le) == [x] + t
  {
  }

  lemma SortCons<T>(s: seq<T>, x: T, le: (T, T) -> bool)
    requires s != []
    ensures Sort(s + [x], le) == Insert(s[0], Sort(s[1..] + [x], le), le)
  {
    assert (s + [x])[0] == s[0];
    assert (s + [x])[1..] == s[1..] + [x];
  }

  /** Sorting an ordered sequence with one element appended inserts that
      element at some position `k` and keeps every other element in its place. */
  lemma {:induction false} SortSortedPlusOne<T>(s: seq<T>, x: T, le: (T, T) -> bool) returns (k: nat)
    requires Sorted(s, le)
    ensures k <= |s| && Sort(s + [x], le) == s[..k] + [x] + s[k..]
  {
    if s == [] {
      k := 0;
      assert s + [x] == [x];
    } else {
      assert Sorted(s[1..], le);
      var k' := SortSortedPlusOne(s[1..], x, le);
      SortCons(s, x, le);
      var t := Sort(s[1..] + [x], le);
      assert t == s[1..][..k'] + [x] + s[1..][k'..];
      if k' > 0 {
        assert t[0] == s[1];
        InsertInFront(s[0], t, le);
        k := k' + 1;
        calc {
          [s[0]] + t;
          [s[0]] + (s[1..][..k'] + [x] + s[1..][k'..]);
          { assert [s[0]] + s[1..][..k'] == s[..k]; assert s[1..][k'..] == s[k..]; }
          s[..k] + [x] + s[k..];
        }
      } else if le(s[0], x) {
        assert t == [x] + s[1..];
        InsertInFront(s[0], t, le);
        k := 1;
        assert [s[0]] + t == s[..1] + [x] + s[1..];
      } else {
        assert t == [x] + s[1..];
        assert t[1..] == s[1..];
        assert s[1..] == [] || le(s[0], s[1]);
        InsertInFront(s[0], s[1..], le);
        assert [s[0]] + s[1..] == s;
        k := 0;
        assert s[..0] + [x] + s[0..] == [x] + s;
      }
    }
  }
}
