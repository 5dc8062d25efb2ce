/** Grouping corrections that repeat each other: union-find over the pairs
    whose similarity clears a threshold.

    Corrections are their positions `0..n`; `alike(a, b)` for `a < b` says that
    the pair clears the threshold, and `ids` are their (distinct) event ids. */
module CorrectionClusters {
  import opened Basics

  const MIN_SOURCES: nat := 2

  type Alike = (nat, nat) -> bool

  // ---- The specification: chains of alike pairs. ----

  predicate Linked(alike: Alike, a: nat, b: nat) {
    (a < b && alike(a, b)) || (b < a && alike(b, a))
  }

  /** Consecutive members are alike. */
  ghost predicate IsChain(alike: Alike, n: nat, chain: seq<nat>) {
    && |chain| > 0
    && (forall k :: 0 <= k < |chain| ==> chain[k] < n)
    && (forall k :: 0 <= k < |chain| - 1 ==> Linked(alike, chain[k], chain[k + 1]))
  }

  ghost predicate ChainFrom(alike: Alike, n: nat, chain: seq<nat>, a: nat, b: nat) {
    IsChain(alike, n, chain) && chain[0] == a && chain[|chain| - 1] == b
  }

  ghost predicate Connected(alike: Alike, n: nat, a: nat, b: nat) {
    exists chain :: ChainFrom(alike, n, chain, a, b)
  }

  lemma ConnectedReflexive(alike: Alike, n: nat, a: nat)
    requires a < n
    ensures Connected(alike, n, a, a)
  {
    assert ChainFrom(alike, n, [a], a, a);
  }

  lemma ConnectedLink(alike: Alike, n: nat, a: nat, b: nat)
    requires a < n && b < n && Linked(alike, a, b)
    ensures Connected(alike, n, a, b)
  {
    assert ChainFrom(alike, n, [a, b], a, b);
  }

  lemma ConnectedTransitive(alike: Alike, n: nat, a: nat, b: nat, c: nat)
    requires Connected(alike, n, a, b) && Connected(alike, n, b, c)
    ensures Connected(alike, n, a, c)
  {
    var p :| ChainFrom(alike, n, p, a, b);
    var q :| ChainFrom(alike, n, q, b, c);
    var r := p + q[1..];
    forall k | 0 <= k < |r| - 1
      ensures Linked(alike, r[k], r[k + 1])
    {
      if k == |p| - 1 {
        assert r[k] == q[0] && r[k + 1] == q[1];
      } else if k >= |p| {
        assert r[k] == q[k - |p| + 1] && r[k + 1] == q[k - |p| + 2];
      }
    }
    assert ChainFrom(alike, n, r, a, c);
  }

  lemma ConnectedSymmetric(alike: Alike, n: nat, a: nat, b: nat)
    requires Connected(alike, n, a, b)
    ensures Connected(alike, n, b, a)
  {
    var p :| ChainFrom(alike, n, p, a, b);
    var r := seq(|p|, i requires 0 <= i < |p| => p[|p| - 1 - i]);
    forall k | 0 <= k < |r| - 1
      ensures Linked(alike, r[k], r[k + 1])
    {
      assert r[k] == p[|p| - 1 - k] && r[k + 1] == p[|p| - 2 - k];
    }
    assert ChainFrom(alike, n, r, b, a);
  }

  // ---- The parent array. ----

  /** `comp` names the root of every index, and `rank` grows along parents:
      the forest is acyclic. */
  ghost predicate Forest(parent: seq<nat>, comp: seq<nat>, rank: seq<nat>) {
    && |parent| == |comp| == |rank|
    && (forall i :: 0 <= i < |parent| ==> parent[i] < |parent| && comp[i] < |parent|)
    && (forall i :: 0 <= i < |parent| ==> IsNode(parent, comp, rank, i))
  }

  ghost predicate IsNode(parent: seq<nat>, comp: seq<nat>, rank: seq<nat>, i: nat)
    requires |parent| == |comp| == |rank| && i < |parent| && parent[i] < |parent| && comp[i] < |parent|
  {
    && comp[parent[i]] == comp[comp[i]] == parent[comp[i]] == comp[i]
    && (if parent[i] == i then comp[i] == i else rank[i] < rank[parent[i]])
  }

  ghost predicate RanksBelow(rank: seq<nat>, bound: nat) {
    forall i :: 0 <= i < |rank| ==> rank[i] < bound
  }

  /** The root of `start`, halving the path on the way. */
  method Root(parent: array<nat>, start: nat, ghost comp: seq<nat>, ghost rank: seq<nat>, ghost bound: nat)
    returns (index: nat)
    requires start < parent.Length && Forest(parent[..], comp, rank) && RanksBelow(rank, bound)
    modifies parent
    ensures Forest(parent[..], comp, rank)
    ensures index == comp[start] && index < parent.Length && parent[index] == index
  {
    index := start;
    while parent[index] != index
      invariant index < parent.Length
      invariant Forest(parent[..], comp, rank) && comp[index] == comp[start]
      decreases bound - rank[index]
    {
      ghost var was := parent[..];
      assert IsNode(was, comp, rank, index) && IsNode(was, comp, rank, was[index]);
      parent[index] := parent[parent[index]];
      assert parent[..] == was[index := was[was[index]]];
      HalvingKeepsForest(was, comp, rank, index);
      assert IsNode(parent[..], comp, rank, index);
      index := parent[index];
    }
    assert IsNode(parent[..], comp, rank, index);
  }

  lemma HalvingKeepsForest(parent: seq<nat>, comp: seq<nat>, rank: seq<nat>, i: nat)
    requires Forest(parent, comp, rank) && i < |parent| && parent[i] != i
    ensures Forest(parent[i := parent[parent[i]]], comp, rank)
    ensures rank[i] < rank[parent[parent[i]]]
  {
    var up := parent[parent[i]];
    assert IsNode(parent, comp, rank, i) && IsNode(parent, comp, rank, parent[i]) && IsNode(parent, comp, rank, up);
    var after := parent[i := up];
    forall j: nat | j < |parent|
      ensures IsNode(after, comp, rank, j)
    {
      assert IsNode(parent, comp, rank, j);
    }
  }

  /** Hanging root `rb` under root `ra`. */
  function Hung(comp: seq<nat>, ra: nat, rb: nat): seq<nat> {
    seq(|comp|, i requires 0 <= i < |comp| => if comp[i] == rb then ra else comp[i])
  }

  function Raised(rank: seq<nat>, ra: nat, rb: nat): seq<nat>
    requires ra < |rank| && rb < |rank|
  {
    rank[ra := Max(rank[ra], rank[rb] + 1)]
  }

  lemma HangingKeepsForest(parent: seq<nat>, comp: seq<nat>, rank: seq<nat>, ra: nat, rb: nat)
    requires Forest(parent, comp, rank) && ra < |parent| && rb < |parent| && ra != rb
    requires parent[ra] == ra && parent[rb] == rb
    ensures Forest(parent[rb := ra], Hung(comp, ra, rb), Raised(rank, ra, rb))
  {
    var after, comp', rank' := parent[rb := ra], Hung(comp, ra, rb), Raised(rank, ra, rb);
    assert IsNode(parent, comp, rank, ra) && IsNode(parent, comp, rank, rb);
    forall j: nat | j < |parent|
      ensures IsNode(after, comp', rank', j)
    {
      assert IsNode(parent, comp, rank, j) && IsNode(parent, comp, rank, parent[j]);
      assert IsNode(parent, comp, rank, comp[j]);
    }
  }

  // ---- What the grouping returns. ----

  /** One whole class of the chain relation, two or more, in input order. */
  ghost predicate IsGroup(alike: Alike, n: nat, g: seq<nat>) {
    && |g| >= 2 && Ascending(g)
    && (forall x :: 0 <= x < |g| ==> g[x] < n)
    && (forall i :: 0 <= i < n ==> (i in g <==> Connected(alike, n, i, g[0])))
  }

  /** Groups by their first member, newest id first. */
  predicate NewestFirst(ids: seq<nat>, groups: seq<seq<nat>>) {
    && (forall x :: 0 <= x < |groups| ==> |groups[x]| > 0 && groups[x][0] < |ids|)
    && (forall x, y :: 0 <= x < y < |groups| ==> ids[groups[x][0]] > ids[groups[y][0]])
  }

  /** All the groups and nothing else, in that order. */
  ghost predicate IsClustering(alike: Alike, ids: seq<nat>, groups: seq<seq<nat>>) {
    && (forall g :: g in groups ==> IsGroup(alike, |ids|, g))
    && (forall i, j :: 0 <= i < j < |ids| && Connected(alike, |ids|, i, j) ==> exists g :: g in groups && i in g)
    && NewestFirst(ids, groups)
  }

  /** Two clusterings hold the same groups. */
  lemma SameGroups(alike: Alike, ids: seq<nat>, r: seq<seq<nat>>, s: seq<seq<nat>>, g: seq<nat>)
    requires IsClustering(alike, ids, r) && IsClustering(alike, ids, s) && g in r
    ensures g in s
  {
    var n := |ids|;
    assert IsGroup(alike, n, g) && g[1] in g;
    ConnectedSymmetric(alike, n, g[1], g[0]);
    var h :| h in s && g[0] in h;
    assert IsGroup(alike, n, h);
    forall i
      ensures i in g <==> i in h
    {
      if i < n {
        if i in g {
          ConnectedTransitive(alike, n, i, g[0], h[0]);
        }
        if i in h {
          ConnectedSymmetric(alike, n, g[0], h[0]);
          ConnectedTransitive(alike, n, i, h[0], g[0]);
        }
      }
    }
    AscendingUnique(g, h);
  }

  lemma {:induction false} NewestFirstUnique(ids: seq<nat>, r: seq<seq<nat>>, s: seq<seq<nat>>)
    requires NewestFirst(ids, r) && NewestFirst(ids, s) && forall g :: g in r <==> g in s
    ensures r == s
    decreases |r|
  {
    NonEmptyHasMember(s);
    if r != [] {
      assert r[0] in s && s[0] in r;
      assert r[0] == s[0];
      forall g
        ensures g in r[1..] <==> g in s[1..]
      {
        assert g in r[1..] <==> g in r && g != r[0];
        assert g in s[1..] <==> g in s && g != s[0];
      }
      NewestFirstUnique(ids, r[1..], s[1..]);
    }
  }

  /** The clustering is determined by the corrections: the order in which a
      hash map happens to yield its groups cannot show. */
  lemma ClusteringUnique(alike: Alike, ids: seq<nat>, r: seq<seq<nat>>, s: seq<seq<nat>>)
    requires IsClustering(alike, ids, r) && IsClustering(alike, ids, s)
    ensures r == s
  {
    forall g
      ensures g in r <==> g in s
    {
      if g in r { SameGroups(alike, ids, r, s, g); }
      if g in s { SameGroups(alike, ids, s, r, g); }
    }
    NewestFirstUnique(ids, r, s);
  }

  /** Two corrections share a group exactly when a chain connects them. */
  lemma ShareGroupIffConnected(alike: Alike, ids: seq<nat>, r: seq<seq<nat>>, i: nat, j: nat)
    requires IsClustering(alike, ids, r) && i < j < |ids|
    ensures (exists g :: g in r && i in g && j in g) <==> Connected(alike, |ids|, i, j)
  {
    var n := |ids|;
    if g :| g in r && i in g && j in g {
      assert IsGroup(alike, n, g);
      ConnectedSymmetric(alike, n, j, g[0]);
      ConnectedTransitive(alike, n, i, g[0], j);
    }
    if Connected(alike, n, i, j) {
      var g :| g in r && i in g;
      assert IsGroup(alike, n, g);
      ConnectedSymmetric(alike, n, i, j);
      ConnectedTransitive(alike, n, j, i, g[0]);
    }
  }

  // ---- The program. ----

  /** The indices below `k` whose root is `r`, in input order. */
  function Members(comp: seq<nat>, r: nat, k: nat): seq<nat>
    requires k <= |comp|
  {
    if k == 0 then []
    else Members(comp, r, k - 1) + (if comp[k - 1] == r then [k - 1] else [])
  }

  lemma {:induction false} MembersAre(comp: seq<nat>, r: nat, k: nat)
    requires k <= |comp|
    ensures Ascending(Members(comp, r, k))
    ensures forall i: nat :: i in Members(comp, r, k) <==> i < k && comp[i] == r
  {
    if k > 0 {
      MembersAre(comp, r, k - 1);
      var before := Members(comp, r, k - 1);
      forall x | 0 <= x < |before|
        ensures before[x] < k - 1
      {
        assert before[x] in before;
      }
    }
  }

  /** Every index is connected to its root. */
  ghost predicate RootsConnected(alike: Alike, comp: seq<nat>) {
    forall i :: 0 <= i < |comp| ==> Connected(alike, |comp|, i, comp[i])
  }

  /** Every alike pair before `(a, b)` shares its root. */
  ghost predicate PairsJoined(alike: Alike, comp: seq<nat>, a: nat, b: nat) {
    forall i, j :: 0 <= i < j < |comp| && (i < a || (i == a && j < b)) && alike(i, j) ==> comp[i] == comp[j]
  }

  lemma HangingConnects(alike: Alike, comp: seq<nat>, a: nat, b: nat)
    requires RootsConnected(alike, comp) && a < b < |comp| && alike(a, b)
    ensures RootsConnected(alike, Hung(comp, comp[a], comp[b]))
  {
    var n := |comp|;
    forall i | 0 <= i < n && comp[i] == comp[b]
      ensures Connected(alike, n, i, comp[a])
    {
      ConnectedSymmetric(alike, n, b, comp[b]);
      ConnectedTransitive(alike, n, i, comp[b], b);
      ConnectedLink(alike, n, b, a);
      ConnectedTransitive(alike, n, i, b, a);
      ConnectedTransitive(alike, n, i, a, comp[a]);
    }
  }

  /** The roots after one pair was looked at. */
  function AfterPair(alike: Alike, comp: seq<nat>, a: nat, b: nat): seq<nat>
    requires a < |comp| && b < |comp|
  {
    if alike(a, b) && comp[a] != comp[b] then Hung(comp, comp[a], comp[b]) else comp
  }

  lemma PairJoins(alike: Alike, comp: seq<nat>, a: nat, b: nat)
    requires a < b < |comp| && PairsJoined(alike, comp, a, b)
    ensures PairsJoined(alike, AfterPair(alike, comp, a, b), a, b + 1)
  {
  }

  lemma PairConnects(alike: Alike, comp: seq<nat>, a: nat, b: nat)
    requires a < b < |comp| && RootsConnected(alike, comp)
    ensures RootsConnected(alike, AfterPair(alike, comp, a, b))
  {
    if alike(a, b) && comp[a] != comp[b] {
      HangingConnects(alike, comp, a, b);
    }
  }

  lemma RaisedBelow(rank: seq<nat>, ra: nat, rb: nat, bound: nat)
    requires ra < |rank| && rb < |rank| && RanksBelow(rank, bound)
    ensures RanksBelow(Raised(rank, ra, rb), bound + 1)
  {
  }

  /** `parent[rb] = ra` for two different roots. */
  method Hang(parent: array<nat>, ra: nat, rb: nat, ghost comp: seq<nat>, ghost rank: seq<nat>, ghost bound: nat)
    returns (ghost rank': seq<nat>, ghost bound': nat)
    requires Forest(parent[..], comp, rank) && RanksBelow(rank, bound)
    requires ra < parent.Length && rb < parent.Length && ra != rb && parent[ra] == ra && parent[rb] == rb
    modifies parent
    ensures Forest(parent[..], Hung(comp, ra, rb), rank') && RanksBelow(rank', bound')
  {
    ghost var was := parent[..];
    HangingKeepsForest(was, comp, rank, ra, rb);
    RaisedBelow(rank, ra, rb, bound);
    parent[rb] := ra;
    assert parent[..] == was[rb := ra];
    rank', bound' := Raised(rank, ra, rb), bound + 1;
  }

  /** One pair of the union phase. */
  method JoinPair(parent: array<nat>, alike: Alike, a: nat, b: nat,
                  ghost comp: seq<nat>, ghost rank: seq<nat>, ghost bound: nat)
    returns (ghost rank': seq<nat>, ghost bound': nat)
    requires a < b < parent.Length && Forest(parent[..], comp, rank) && RanksBelow(rank, bound)
    modifies parent
    ensures Forest(parent[..], AfterPair(alike, comp, a, b), rank') && RanksBelow(rank', bound')
  {
    rank', bound' := rank, bound;
    if alike(a, b) {
      var ra := Root(parent, a, comp, rank, bound);
      var rb := Root(parent, b, comp, rank, bound);
      if ra != rb {
        assert IsNode(parent[..], comp, rank, a);
        rank', bound' := Hang(parent, ra, rb, comp, rank, bound);
      }
    }
  }

  /** The union phase: afterwards two indices have one root exactly when a
      chain of alike pairs connects them. */
  method JoinPairs(parent: array<nat>, alike: Alike)
    returns (ghost comp: seq<nat>, ghost rank: seq<nat>, ghost bound: nat)
    requires forall i :: 0 <= i < parent.Length ==> parent[i] == i
    modifies parent
    ensures Forest(parent[..], comp, rank) && RanksBelow(rank, bound)
    ensures RootsConnected(alike, comp) && PairsJoined(alike, comp, |comp|, 0)
  {
    var n := parent.Length;
    comp, rank, bound := seq(n, i => i), seq(n, i => 0), 1;
    forall i | 0 <= i < n
      ensures Connected(alike, n, i, comp[i])
    {
      ConnectedReflexive(alike, n, i);
    }
    for a := 0 to n
      invariant Forest(parent[..], comp, rank) && RanksBelow(rank, bound)
      invariant RootsConnected(alike, comp) && PairsJoined(alike, comp, a, 0)
    {
      for b := a + 1 to n
        invariant Forest(parent[..], comp, rank) && RanksBelow(rank, bound)
        invariant RootsConnected(alike, comp) && PairsJoined(alike, comp, a, b)
      {
        PairConnects(alike, comp, a, b);
        PairJoins(alike, comp, a, b);
        rank, bound := JoinPair(parent, alike, a, b, comp, rank, bound);
        comp := AfterPair(alike, comp, a, b);
      }
    }
  }

  lemma {:induction false} ChainSharesRoot(alike: Alike, comp: seq<nat>, chain: seq<nat>)
    requires IsChain(alike, |comp|, chain) && PairsJoined(alike, comp, |comp|, 0)
    ensures comp[chain[0]] == comp[chain[|chain| - 1]]
    decreases |chain|
  {
    if |chain| > 1 {
      assert Linked(alike, chain[0], chain[1]);
      var rest := chain[1..];
      forall k | 0 <= k < |rest| - 1
        ensures Linked(alike, rest[k], rest[k + 1])
      {
        assert Linked(alike, chain[k + 1], chain[k + 2]);
      }
      ChainSharesRoot(alike, comp, rest);
    }
  }

  lemma RootIffConnected(alike: Alike, comp: seq<nat>, i: nat, j: nat)
    requires RootsConnected(alike, comp) && PairsJoined(alike, comp, |comp|, 0)
    requires i < |comp| && j < |comp|
    ensures comp[i] == comp[j] <==> Connected(alike, |comp|, i, j)
  {
    var n := |comp|;
    if comp[i] == comp[j] {
      ConnectedSymmetric(alike, n, j, comp[j]);
      ConnectedTransitive(alike, n, i, comp[i], j);
    }
    if Connected(alike, n, i, j) {
      var chain :| ChainFrom(alike, n, chain, i, j);
      ChainSharesRoot(alike, comp, chain);
    }
  }

  lemma InsertKeepsOrder(ids: seq<nat>, sorted: seq<seq<nat>>, at: nat, g: seq<nat>)
    requires NewestFirst(ids, sorted) && |g| > 0 && g[0] < |ids| && at <= |sorted|
    requires forall x :: 0 <= x < at ==> ids[sorted[x][0]] > ids[g[0]]
    requires at < |sorted| ==> ids[sorted[at][0]] < ids[g[0]]
    ensures NewestFirst(ids, sorted[..at] + [g] + sorted[at..])
  {
    var r := sorted[..at] + [g] + sorted[at..];
    forall x | 0 <= x < |r|
      ensures r[x] == if x < at then sorted[x] else if x == at then g else sorted[x - 1]
    {
    }
  }

  method InsertNewestFirst(ids: seq<nat>, sorted: seq<seq<nat>>, g: seq<nat>) returns (r: seq<seq<nat>>)
    requires NewestFirst(ids, sorted) && |g| > 0 && g[0] < |ids|
    requires forall x :: 0 <= x < |sorted| ==> ids[sorted[x][0]] != ids[g[0]]
    ensures NewestFirst(ids, r)
    ensures forall h :: h in r <==> h in sorted || h == g
  {
    var at := 0;
    while at < |sorted| && ids[sorted[at][0]] > ids[g[0]]
      invariant at <= |sorted|
      invariant forall x :: 0 <= x < at ==> ids[sorted[x][0]] > ids[g[0]]
    {
      at := at + 1;
    }
    InsertKeepsOrder(ids, sorted, at, g);
    r := sorted[..at] + [g] + sorted[at..];
    assert sorted == sorted[..at] + sorted[at..];
  }

  /** `sort_by` on the first member's id, newest first. */
  method SortNewestFirst(ids: seq<nat>, groups: seq<seq<nat>>) returns (sorted: seq<seq<nat>>)
    requires forall x :: 0 <= x < |groups| ==> |groups[x]| > 0 && groups[x][0] < |ids|
    requires forall x, y :: 0 <= x < y < |groups| ==> ids[groups[x][0]] != ids[groups[y][0]]
    ensures NewestFirst(ids, sorted)
    ensures forall g :: g in sorted <==> g in groups
  {
    sorted := [];
    for k := 0 to |groups|
      invariant NewestFirst(ids, sorted)
      invariant forall g :: g in sorted <==> g in groups[..k]
    {
      forall x | 0 <= x < |sorted|
        ensures ids[sorted[x][0]] != ids[groups[k][0]]
      {
        assert sorted[x] in groups[..k];
      }
      sorted := InsertNewestFirst(ids, sorted, groups[k]);
      assert groups[..k + 1] == groups[..k] + [groups[k]];
    }
    assert groups[..|groups|] == groups;
  }

  /** The map from roots to their members. */
  ghost predicate GroupsByRoot(comp: seq<nat>, groups: map<nat, seq<nat>>, k: nat)
    requires k <= |comp|
  {
    && (forall i :: 0 <= i < k ==> comp[i] in groups)
    && (forall r :: r in groups ==> groups[r] == Members(comp, r, k) && groups[r] != [])
  }

  /** `groups.entry(r).or_default().push(k)`. */
  function Pushed(groups: map<nat, seq<nat>>, r: nat, k: nat): map<nat, seq<nat>> {
    groups[r := (if r in groups then groups[r] else []) + [k]]
  }

  lemma MembersNext(comp: seq<nat>, r: nat, k: nat)
    requires k < |comp|
    ensures comp[k] == r ==> Members(comp, r, k + 1) == Members(comp, r, k) + [k]
    ensures comp[k] != r ==> Members(comp, r, k + 1) == Members(comp, r, k)
  {
  }

  /** A root met for the first time has no members yet. */
  lemma FirstMeeting(comp: seq<nat>, groups: map<nat, seq<nat>>, k: nat)
    requires k < |comp| && GroupsByRoot(comp, groups, k)
    ensures Members(comp, comp[k], k) == if comp[k] in groups then groups[comp[k]] else []
  {
    MembersAre(comp, comp[k], k);
    NonEmptyHasMember(Members(comp, comp[k], k));
  }

  lemma AddToGroup(comp: seq<nat>, groups: map<nat, seq<nat>>, k: nat)
    requires k < |comp| && GroupsByRoot(comp, groups, k)
    ensures GroupsByRoot(comp, Pushed(groups, comp[k], k), k + 1)
  {
    FirstMeeting(comp, groups, k);
    var groups' := Pushed(groups, comp[k], k);
    forall other | other in groups'
      ensures groups'[other] == Members(comp, other, k + 1) && groups'[other] != []
    {
      MembersNext(comp, other, k);
    }
  }

  method CollectByRoot(parent: array<nat>, ghost comp: seq<nat>, ghost rank: seq<nat>, ghost bound: nat)
    returns (groups: map<nat, seq<nat>>)
    requires Forest(parent[..], comp, rank) && RanksBelow(rank, bound)
    modifies parent
    ensures GroupsByRoot(comp, groups, |comp|)
  {
    groups := map[];
    for index := 0 to parent.Length
      invariant Forest(parent[..], comp, rank)
      invariant GroupsByRoot(comp, groups, index)
    {
      var r := Root(parent, index, comp, rank, bound);
      AddToGroup(comp, groups, index);
      groups := Pushed(groups, r, index);
    }
  }

  /** The groups of two or more, in whatever order the map yields them. */
  method LargeGroups(ghost comp: seq<nat>, groups: map<nat, seq<nat>>)
    returns (values: seq<seq<nat>>, ghost roots: seq<nat>)
    ensures |roots| == |values| && Distinct(roots)
    ensures forall x :: 0 <= x < |values| ==>
              roots[x] in groups && values[x] == groups[roots[x]] && |values[x]| >= MIN_SOURCES
    ensures forall r :: r in groups && |groups[r]| >= MIN_SOURCES ==> groups[r] in values
  {
    values, roots := [], [];
    var left := groups.Keys;
    while left != {}
      invariant left <= groups.Keys
      invariant |roots| == |values| && Distinct(roots)
      invariant forall x :: 0 <= x < |values| ==>
                  roots[x] in groups.Keys - left && values[x] == groups[roots[x]] && |values[x]| >= MIN_SOURCES
      invariant forall r :: r in groups.Keys - left && |groups[r]| >= MIN_SOURCES ==> groups[r] in values
    {
      var r :| r in left;
      left := left - {r};
      if |groups[r]| >= MIN_SOURCES {
        values, roots := values + [groups[r]], roots + [r];
      }
    }
  }

  /** Different groups have different first members. */
  lemma FirstsDiffer(comp: seq<nat>, groups: map<nat, seq<nat>>, values: seq<seq<nat>>, roots: seq<nat>)
    requires GroupsByRoot(comp, groups, |comp|)
    requires |roots| == |values| && Distinct(roots)
    requires forall x :: 0 <= x < |values| ==> roots[x] in groups && values[x] == groups[roots[x]]
    ensures forall x :: 0 <= x < |values| ==> |values[x]| > 0 && values[x][0] < |comp|
    ensures forall x, y :: 0 <= x < y < |values| ==> values[x][0] != values[y][0]
  {
    forall x | 0 <= x < |values|
      ensures |values[x]| > 0 && values[x][0] < |comp| && comp[values[x][0]] == roots[x]
    {
      MembersAre(comp, roots[x], |comp|);
      assert values[x][0] in values[x];
    }
  }

  /** Groups by root are classes of the chain relation. */
  lemma RootGroupsAreGroups(alike: Alike, comp: seq<nat>)
    requires RootsConnected(alike, comp) && PairsJoined(alike, comp, |comp|, 0)
    ensures forall r: nat :: |Members(comp, r, |comp|)| >= MIN_SOURCES ==>
              IsGroup(alike, |comp|, Members(comp, r, |comp|))
  {
    var n := |comp|;
    forall r: nat | |Members(comp, r, n)| >= MIN_SOURCES
      ensures IsGroup(alike, n, Members(comp, r, n))
    {
      var g := Members(comp, r, n);
      MembersAre(comp, r, n);
      assert forall x :: 0 <= x < |g| ==> g[x] in g;
      forall i | 0 <= i < n
        ensures i in g <==> Connected(alike, n, i, g[0])
      {
        RootIffConnected(alike, comp, i, g[0]);
      }
    }
  }

  /** Whoever is connected to another is in a group of two or more. */
  lemma ConnectedIsLarge(alike: Alike, comp: seq<nat>, i: nat, j: nat)
    requires RootsConnected(alike, comp) && PairsJoined(alike, comp, |comp|, 0)
    requires i < j < |comp| && Connected(alike, |comp|, i, j)
    ensures i in Members(comp, comp[i], |comp|) && |Members(comp, comp[i], |comp|)| >= MIN_SOURCES
  {
    RootIffConnected(alike, comp, i, j);
    MembersAre(comp, comp[i], |comp|);
    var g := Members(comp, comp[i], |comp|);
    assert i in g && j in g;
  }

  lemma ClassesAreGroups(alike: Alike, comp: seq<nat>, groups: map<nat, seq<nat>>,
                         values: seq<seq<nat>>, roots: seq<nat>)
    requires RootsConnected(alike, comp) && PairsJoined(alike, comp, |comp|, 0)
    requires GroupsByRoot(comp, groups, |comp|)
    requires |roots| == |values|
    requires forall x :: 0 <= x < |values| ==>
               roots[x] in groups && values[x] == groups[roots[x]] && |values[x]| >= MIN_SOURCES
    requires forall r :: r in groups && |groups[r]| >= MIN_SOURCES ==> groups[r] in values
    ensures forall g :: g in values ==> IsGroup(alike, |comp|, g)
    ensures forall i, j :: 0 <= i < j < |comp| && Connected(alike, |comp|, i, j) ==> exists g :: g in values && i in g
  {
    RootGroupsAreGroups(alike, comp);
    forall x | 0 <= x < |values|
      ensures IsGroup(alike, |comp|, values[x])
    {
      assert values[x] == Members(comp, roots[x], |comp|);
    }
    forall i, j | 0 <= i < j < |comp| && Connected(alike, |comp|, i, j)
      ensures exists g :: g in values && i in g
    {
      ConnectedIsLarge(alike, comp, i, j);
      assert groups[comp[i]] in values;
    }
  }

  /** `encoded` is false when a correction could not be embedded: no groups and
      no rules this round. */
  method ClusterCorrections(ids: seq<nat>, alike: Alike, encoded: bool) returns (clusters: seq<seq<nat>>)
    requires Distinct(ids)
    ensures encoded ==> IsClustering(alike, ids, clusters)
    ensures !encoded ==> clusters == []
  {
    var n := |ids|;
    if n < MIN_SOURCES || !encoded {
      return [];
    }
    var parent := new nat[n](i => i);
    ghost var comp, rank, bound := JoinPairs(parent, alike);
    var groups := CollectByRoot(parent, comp, rank, bound);
    ghost var roots;
    var values;
    values, roots := LargeGroups(comp, groups);
    FirstsDiffer(comp, groups, values, roots);
    ClassesAreGroups(alike, comp, groups, values, roots);
    clusters := SortNewestFirst(ids, values);
  }
}
