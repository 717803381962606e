/** `Array.prototype.filter`, the one sequence operation every delete and
    every query of the tracker is built from. */
module Sequences {

  /** The elements of `s` that satisfy `keep`, in their order in `s`. */
  function Filter<T>(s: seq<T>, keep: T -> bool): (r: seq<T>)
    ensures |r| <= |s|
  {
    if s == [] then []
    else if keep(s[0]) then [s[0]] + Filter(s[1..], keep)
    else Filter(s[1..], keep)
  }

  /** Exactly the elements of `s` that pass `keep` survive. */
  lemma {:induction false} FilterContents<T>(s: seq<T>, keep: T -> bool)
    ensures forall i :: 0 <= i < |Filter(s, keep)| ==> Filter(s, keep)[i] in s && keep(Filter(s, keep)[i])
    ensures forall i :: 0 <= i < |s| && keep(s[i]) ==> s[i] in Filter(s, keep)
  {
    if s != [] {
      FilterContents(s[1..], keep);
      assert forall i :: 1 <= i < |s| ==> s[i] == s[1..][i - 1];
    }
  }

  /** Filtering distributes over concatenation: survivors keep their relative order. */
  lemma {:induction false} FilterAppend<T>(a: seq<T>, b: seq<T>, keep: T -> bool)
    ensures Filter(a + b, keep) == Filter(a, keep) + Filter(b, keep)
  {
    if a == [] {
      assert a + b == b;
    } else {
      assert (a + b)[0] == a[0];
      assert (a + b)[1..] == a[1..] + b;
      FilterAppend(a[1..], b, keep);
    }
  }

  /** Appending one element adds it to the filtered sequence exactly when it is kept. */
  lemma FilterSnoc<T>(s: seq<T>, x: T, keep: T -> bool)
    ensures Filter(s + [x], keep) == Filter(s, keep) + (if keep(x) then [x] else [])
  {
    FilterAppend(s, [x], keep);
    assert [x][1..] == [];
  }

  /** Filtering keeps a sequence whose every element passes unchanged. */
  lemma {:induction false} FilterAllKept<T>(s: seq<T>, keep: T -> bool)
    requires forall i :: 0 <= i < |s| ==> keep(s[i])
    ensures Filter(s, keep) == s
  {
    if s != [] {
      FilterAllKept(s[1..], keep);
    }
  }

  /** Nothing survives a filter that no element passes. */
  lemma {:induction false} FilterNoneKept<T>(s: seq<T>, keep: T -> bool)
    requires forall i :: 0 <= i < |s| ==> !keep(s[i])
    ensures Filter(s, keep) == []
  {
    if s != [] {
      FilterNoneKept(s[1..], keep);
    }
  }

  /** Filtering twice by the same predicate is filtering once: a repeated delete is a no-op. */
  lemma FilterIdempotent<T>(s: seq<T>, keep: T -> bool)
    ensures Filter(Filter(s, keep), keep) == Filter(s, keep)
  {
    FilterContents(s, keep);
    FilterAllKept(Filter(s, keep), keep);
  }

  /** Both tests at once: filtering by `p` and then by `q` is filtering by this. */
  function Both<T>(p: T -> bool, q: T -> bool): T -> bool {
    (x: T) => p(x) && q(x)
  }

  lemma {:induction false} FilterFilter<T>(s: seq<T>, p: T -> bool, q: T -> bool)
    ensures Filter(Filter(s, p), q) == Filter(s, Both(p, q))
  {
    if s != [] {
      FilterFilter(s[1..], p, q);
      if p(s[0]) {
        assert Filter(s, p) == [s[0]] + Filter(s[1..], p);
        assert ([s[0]] + Filter(s[1..], p))[1..] == Filter(s[1..], p);
      }
    }
  }

  /** The element at position `m` of the filtered sequence comes from the
      position `i` of `s` that has exactly `m` survivors before it. */
  lemma {:induction false} FilterPosition<T>(s: seq<T>, keep: T -> bool, m: nat) returns (i: nat)
    requires m < |Filter(s, keep)|
    ensures i < |s| && keep(s[i]) && s[i] == Filter(s, keep)[m]
    ensures |Filter(s[..i], keep)| == m
  {
    assert s != [];
    if keep(s[0]) && m == 0 {
      i := 0;
      assert s[..0] == [];
    } else {
      var m' := if keep(s[0]) then m - 1 else m;
      var i' := FilterPosition(s[1..], keep, m');
      i := i' + 1;
      assert s[..i] == [s[0]] + s[1..][..i'];
      assert Filter(s[..i], keep) == (if keep(s[0]) then [s[0]] else []) + Filter(s[1..][..i'], keep);
    }
  }

  /** Survivors keep their order: a survivor at position `j` of `s` sits at
      position `|Filter(s[..j], keep)|` of the filtered sequence, and that
      position grows with `j`. */
  lemma FilterIndexOrder<T>(s: seq<T>, keep: T -> bool, j: nat, i: nat)
    requires j < i <= |s| && keep(s[j])
    ensures |Filter(s[..j], keep)| < |Filter(s[..i], keep)|
    ensures |Filter(s[..j], keep)| < |Filter(s, keep)|
    ensures Filter(s, keep)[|Filter(s[..j], keep)|] == s[j]
  {
    assert s[..i] == s[..j] + s[j..i];
    FilterAppend(s[..j], s[j..i], keep);
    assert s[j..i] == [s[j]] + s[j + 1..i];
    assert s == s[..j] + s[j..];
    FilterAppend(s[..j], s[j..], keep);
    assert s[j..] == [s[j]] + s[j + 1..];
  }
}
