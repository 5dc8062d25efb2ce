/** Small shared vocabulary. */
module Basics {

  datatype Option<+T> = None | Some(value: T)

  function Max(a: nat, b: nat): nat {
    if a > b then a else b
  }

  function Min(a: nat, b: nat): nat {
    if a < b then a else b
  }

  /** `usize::saturating_sub`. */
  function SaturatingSub(a: nat, b: nat): nat {
    if a > b then a - b else 0
  }

  predicate Distinct<T(==)>(s: seq<T>) {
    forall i, j :: 0 <= i < j < |s| ==> s[i] != s[j]
  }

  /** Every position is below `n`. */
  predicate Within(n: nat, ids: seq<nat>) {
    forall k :: 0 <= k < |ids| ==> ids[k] < n
  }

  lemma NonEmptyHasMember<T>(s: seq<T>)
    ensures |s| > 0 ==> exists x :: x in s
  {
    if |s| > 0 {
      assert s[0] in s;
    }
  }

  predicate Ascending(g: seq<nat>) {
    forall x, y :: 0 <= x < y < |g| ==> g[x] < g[y]
  }

  /** An ascending sequence is determined by its members. */
  lemma {:induction false} AscendingUnique(g: seq<nat>, h: seq<nat>)
    requires Ascending(g) && Ascending(h) && forall i :: i in g <==> i in h
    ensures g == h
    decreases |g|
  {
    NonEmptyHasMember(h);
    if g != [] {
      var last := g[|g| - 1];
      assert last in h && h[|h| - 1] in g;
      assert h[|h| - 1] == last;
      var g', h' := g[..|g| - 1], h[..|h| - 1];
      forall i | i in g'
        ensures i in h'
      {
        assert i in g && i != last;
      }
      forall i | i in h'
        ensures i in g'
      {
        assert i in h && i != last;
      }
      AscendingUnique(g', h');
    }
  }

  lemma Associate<T>(a: seq<T>, b: seq<T>, c: seq<T>)
    ensures (a + b) + c == a + (b + c)
  {
  }

  /** What is named and known, first mention only. */
  function Selected<T(==, !new)>(known: seq<T>, named: seq<T>): (r: seq<T>)
    ensures Distinct(r) && forall x :: x in r <==> x in named && x in known
  {
    if named == [] then []
    else
      var before, last := Selected(known, named[..|named| - 1]), named[|named| - 1];
      assert named == named[..|named| - 1] + [last];
      if last in known && last !in before then before + [last] else before
  }

  lemma SelectedNext<T(!new)>(known: seq<T>, named: seq<T>, k: nat)
    requires k < |named|
    ensures var before := Selected(known, named[..k]);
            Selected(known, named[..k + 1]) ==
            if named[k] in known && named[k] !in before then before + [named[k]] else before
  {
    assert named[..k + 1][..k] == named[..k];
  }
}
