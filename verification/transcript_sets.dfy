/**
  The alignment transcript set of one logical read: the transcript ids of its
  mapped records, sorted ascending with duplicates removed, which is the key
  form of the index's reverse class map.
 */
module TranscriptSets {

  predicate Sorted(s: seq<int>)
  {
    forall i, j :: 0 <= i < j < |s| ==> s[i] <= s[j]
  }

  predicate StrictlyIncreasing(s: seq<int>)
  {
    forall i, j :: 0 <= i < j < |s| ==> s[i] < s[j]
  }

  /** `a` and `b` hold the same elements, multiplicity aside. */
  ghost predicate SameElements(a: seq<int>, b: seq<int>)
  {
    forall x :: x in a <==> x in b
  }

  /** Inserts `x` into sorted `s` before the first element not below it. */
  function Insert(x: int, s: seq<int>): (r: seq<int>)
    requires Sorted(s)
    ensures Sorted(r)
    ensures multiset(r) == multiset(s) + multiset{x}
    ensures r[0] == x || (s != [] && r[0] == s[0])
  {
    if s == [] || x <= s[0] then [x] + s
    else
      assert s == [s[0]] + s[1..];
      var rest := Insert(x, s[1..]);
      assert forall j :: 0 <= j < |rest| ==> s[0] <= rest[0] <= rest[j];
      [s[0]] + rest
  }

  /** Ascending sort, as std::sort leaves the list. */
  function SortAsc(p: seq<int>): (r: seq<int>)
    ensures Sorted(r)
    ensures multiset(r) == multiset(p)
  {
    if p == [] then []
    else
      assert p == [p[0]] + p[1..];
      Insert(p[0], SortAsc(p[1..]))
  }

  /** Drops each element of a sorted list that equals its predecessor. */
  function Dedup(s: seq<int>): (r: seq<int>)
    requires Sorted(s)
    ensures StrictlyIncreasing(r)
    ensures SameElements(r, s)
    ensures s != [] ==> r != [] && r[0] == s[0]
  {
    if |s| <= 1 then s
    else if s[0] == s[1] then Dedup(s[1..])
    else [s[0]] + Dedup(s[1..])
  }

  /** The canonical form of a transcript-id list: sorted, duplicate-free, same elements. */
  function Normalize(p: seq<int>): (lp: seq<int>)
    ensures StrictlyIncreasing(lp)
    ensures SameElements(lp, p)
  {
    var s := SortAsc(p);
    assert forall x :: x in s <==> x in multiset(s);
    Dedup(s)
  }

  /** A strictly increasing list is determined by its elements. */
  lemma {:induction false} StrictlyIncreasingUnique(a: seq<int>, b: seq<int>)
    requires StrictlyIncreasing(a) && StrictlyIncreasing(b)
    requires SameElements(a, b)
    ensures a == b
    decreases |a|
  {
    assert a != [] ==> a[0] in a && a[0] in b;
    assert b != [] ==> b[0] in b && b[0] in a;
    if a != [] && b != [] {
      assert a[0] == b[0];
      forall x
        ensures x in a[1..] <==> x in b[1..]
      {
        if x in a[1..] {
          var i :| 1 <= i < |a| && a[i] == x;
          assert x in b;
          assert x != b[0];
        }
        if x in b[1..] {
          var i :| 1 <= i < |b| && b[i] == x;
          assert x in a;
          assert x != a[0];
        }
      }
      StrictlyIncreasingUnique(a[1..], b[1..]);
      assert a == [a[0]] + a[1..];
      assert b == [b[0]] + b[1..];
    }
  }

  /** Lists with the same elements have the same canonical form, so the lookup key ignores order and repeats. */
  lemma NormalizeCanonical(p: seq<int>, q: seq<int>)
    requires SameElements(p, q)
    ensures Normalize(p) == Normalize(q)
  {
    StrictlyIncreasingUnique(Normalize(p), Normalize(q));
  }

  /**
    The duplicate-removal loop over a sorted list: keeps the first element and
    then every element that differs from its predecessor.
   */
  method DedupSorted(s: seq<int>) returns (lp: seq<int>)
    requires Sorted(s)
    ensures StrictlyIncreasing(lp)
    ensures SameElements(lp, s)
  {
    lp := [];
    if |s| > 0 {
      lp := [s[0]];
      var i := 1;
      while i < |s|
        invariant 1 <= i <= |s|
        invariant StrictlyIncreasing(lp)
        invariant |lp| > 0 && lp[|lp| - 1] == s[i - 1]
        invariant SameElements(lp, s[..i])
      {
        var lp' := if s[i - 1] != s[i] then lp + [s[i]] else lp;
        assert s[..i + 1] == s[..i] + [s[i]];
        forall x
          ensures x in lp' <==> x in s[..i + 1]
        {
          assert x in lp' <==> x in lp || x == s[i];
        }
        lp := lp';
        i := i + 1;
      }
      assert s[..i] == s;
    }
  }

  /** Sorts `p` and removes repeats, giving the canonical form. */
  method SortAndDedup(p: seq<int>) returns (lp: seq<int>)
    ensures lp == Normalize(p)
  {
    var s := SortAsc(p);
    assert forall x :: x in s <==> x in multiset(s);
    lp := DedupSorted(s);
    StrictlyIncreasingUnique(lp, Normalize(p));
  }
}
