/** Grouping claims that state one fact: greedy cliques.

    Items are positions `0..n`, oldest first; `score(a, b)` is how close the
    title of `a` is to that of `b`, for `a < b`. */
module SameFact {
  import opened Basics

  type Score = (nat, nat) -> real

  /** The item clears the threshold against every member. */
  predicate MatchesAll(score: Score, threshold: real, members: seq<nat>, item: nat) {
    forall k :: 0 <= k < |members| ==> score(members[k], item) >= threshold
  }

  /** The matching cluster among the first `k` whose first member is closest,
      the last of them on a tie. */
  function Best(score: Score, threshold: real, clusters: seq<seq<nat>>, item: nat, k: nat): (at: Option<nat>)
    requires k <= |clusters| && forall c :: 0 <= c < |clusters| ==> clusters[c] != []
    ensures at.Some? ==> at.value < k
  {
    if k == 0 then None
    else
      var before := Best(score, threshold, clusters, item, k - 1);
      if !MatchesAll(score, threshold, clusters[k - 1], item) then before
      else if before.Some? && score(clusters[k - 1][0], item) < score(clusters[before.value][0], item) then before
      else Some(k - 1)
  }

  function Placed(clusters: seq<seq<nat>>, item: nat, at: Option<nat>): seq<seq<nat>>
    requires at.Some? ==> at.value < |clusters|
  {
    if at.Some? then clusters[at.value := clusters[at.value] + [item]] else clusters + [[item]]
  }

  /** The clusters of the first `n` items. */
  function Grouped(score: Score, threshold: real, n: nat): (clusters: seq<seq<nat>>)
    ensures forall c :: 0 <= c < |clusters| ==> clusters[c] != []
  {
    if n == 0 then []
    else
      var before := Grouped(score, threshold, n - 1);
      Placed(before, n - 1, Best(score, threshold, before, n - 1, |before|))
  }

  method GroupSameFact(score: Score, threshold: real, n: nat) returns (clusters: seq<seq<nat>>)
    ensures clusters == Grouped(score, threshold, n)
  {
    clusters := [];
    for index := 0 to n
      invariant clusters == Grouped(score, threshold, index)
    {
      var best: Option<nat> := None;
      for at := 0 to |clusters|
        invariant best == Best(score, threshold, clusters, index, at)
      {
        var all := true;
        for m := 0 to |clusters[at]|
          invariant all == MatchesAll(score, threshold, clusters[at][..m], index)
        {
          assert clusters[at][..m + 1] == clusters[at][..m] + [clusters[at][m]];
          if score(clusters[at][m], index) < threshold {
            all := false;
          }
        }
        assert clusters[at][..|clusters[at]|] == clusters[at];
        if all && (best.None? || score(clusters[at][0], index) >= score(clusters[best.value][0], index)) {
          best := Some(at);
        }
      }
      if best.Some? {
        clusters := clusters[best.value := clusters[best.value] + [index]];
      } else {
        clusters := clusters + [[index]];
      }
    }
  }

  // ---- What the grouping guarantees. ----

  predicate Home(clusters: seq<seq<nat>>, i: nat, c: nat) {
    c < |clusters| && i in clusters[c]
  }

  ghost predicate Housed(clusters: seq<seq<nat>>, i: nat) {
    exists c: nat :: Home(clusters, i, c)
  }

  /** Every item below `n`, and nothing else, is in exactly one cluster. */
  ghost predicate IsPartition(n: nat, clusters: seq<seq<nat>>) {
    && (forall i: nat, c: nat :: Home(clusters, i, c) ==>
          i < n && forall d: nat :: Home(clusters, i, d) ==> c == d)
    && (forall i: nat :: i < n ==> Housed(clusters, i))
  }

  predicate IsClique(score: Score, threshold: real, members: seq<nat>) {
    forall x, y :: 0 <= x < y < |members| ==> score(members[x], members[y]) >= threshold
  }

  predicate IsCluster(score: Score, threshold: real, members: seq<nat>) {
    members != [] && Ascending(members) && IsClique(score, threshold, members)
  }

  /** The younger cluster begins later, with an item that somebody older in the
      other cluster does not match. */
  predicate Apart(score: Score, threshold: real, older: seq<nat>, younger: seq<nat>) {
    && older != [] && younger != [] && older[0] < younger[0]
    && exists k :: 0 <= k < |older| && older[k] < younger[0] && score(older[k], younger[0]) < threshold
  }

  ghost predicate GoodGroups(score: Score, threshold: real, n: nat, clusters: seq<seq<nat>>) {
    && IsPartition(n, clusters)
    && (forall c :: 0 <= c < |clusters| ==> IsCluster(score, threshold, clusters[c]))
    && (forall c, d :: 0 <= c < d < |clusters| ==> Apart(score, threshold, clusters[c], clusters[d]))
  }

  lemma {:induction false} BestIsClosest(score: Score, threshold: real, clusters: seq<seq<nat>>, item: nat, k: nat)
    requires k <= |clusters| && forall c :: 0 <= c < |clusters| ==> clusters[c] != []
    ensures var at := Best(score, threshold, clusters, item, k);
            && (at.Some? ==> MatchesAll(score, threshold, clusters[at.value], item))
            && (forall c :: 0 <= c < k && MatchesAll(score, threshold, clusters[c], item) ==>
                  at.Some? && score(clusters[c][0], item) <= score(clusters[at.value][0], item))
            && (forall c :: 0 <= c < k && at.Some? && at.value < c
                            && MatchesAll(score, threshold, clusters[c], item) ==>
                  score(clusters[c][0], item) < score(clusters[at.value][0], item))
  {
    if k > 0 {
      BestIsClosest(score, threshold, clusters, item, k - 1);
    }
  }

  lemma ClusterGrows(score: Score, threshold: real, members: seq<nat>, item: nat)
    requires IsCluster(score, threshold, members) && MatchesAll(score, threshold, members, item)
    requires forall x :: 0 <= x < |members| ==> members[x] < item
    ensures IsCluster(score, threshold, members + [item])
  {
  }

  lemma ApartGrows(score: Score, threshold: real, older: seq<nat>, younger: seq<nat>, more: seq<nat>)
    requires Apart(score, threshold, older, younger)
    ensures Apart(score, threshold, older + more, younger)
    ensures Apart(score, threshold, older, younger + more)
  {
    var k :| 0 <= k < |older| && older[k] < younger[0] && score(older[k], younger[0]) < threshold;
    assert (older + more)[k] == older[k] && (older + more)[0] == older[0];
  }

  lemma NewIsApart(score: Score, threshold: real, older: seq<nat>, item: nat)
    requires older != [] && forall x :: 0 <= x < |older| ==> older[x] < item
    requires !MatchesAll(score, threshold, older, item)
    ensures Apart(score, threshold, older, [item])
  {
  }

  lemma MembersBelow(n: nat, clusters: seq<seq<nat>>, c: nat)
    requires IsPartition(n, clusters) && c < |clusters|
    ensures forall x :: 0 <= x < |clusters[c]| ==> clusters[c][x] < n
  {
    forall x | 0 <= x < |clusters[c]|
      ensures clusters[c][x] < n
    {
      assert Home(clusters, clusters[c][x], c);
    }
  }

  lemma ClustersStep(score: Score, threshold: real, n: nat, clusters: seq<seq<nat>>, c: nat)
    requires GoodGroups(score, threshold, n, clusters)
    requires c < |Placed(clusters, n, Best(score, threshold, clusters, n, |clusters|))|
    ensures IsCluster(score, threshold, Placed(clusters, n, Best(score, threshold, clusters, n, |clusters|))[c])
  {
    BestIsClosest(score, threshold, clusters, n, |clusters|);
    var at := Best(score, threshold, clusters, n, |clusters|);
    if at == Some(c) {
      MembersBelow(n, clusters, c);
      ClusterGrows(score, threshold, clusters[c], n);
    }
  }

  lemma ApartStep(score: Score, threshold: real, n: nat, clusters: seq<seq<nat>>, c: nat, d: nat)
    requires GoodGroups(score, threshold, n, clusters)
    requires c < d < |Placed(clusters, n, Best(score, threshold, clusters, n, |clusters|))|
    ensures var after := Placed(clusters, n, Best(score, threshold, clusters, n, |clusters|));
            Apart(score, threshold, after[c], after[d])
  {
    var at := Best(score, threshold, clusters, n, |clusters|);
    BestIsClosest(score, threshold, clusters, n, |clusters|);
    if d < |clusters| {
      ApartGrows(score, threshold, clusters[c], clusters[d], [n]);
    } else {
      MembersBelow(n, clusters, c);
      assert IsCluster(score, threshold, clusters[c]);
      NewIsApart(score, threshold, clusters[c], n);
    }
  }

  lemma GoodStep(score: Score, threshold: real, n: nat, before: seq<seq<nat>>, after: seq<seq<nat>>)
    requires GoodGroups(score, threshold, n, before)
    requires after == Placed(before, n, Best(score, threshold, before, n, |before|))
    ensures GoodGroups(score, threshold, n + 1, after)
  {
    var at := Best(score, threshold, before, n, |before|);
    var home := if at.Some? then at.value else |before|;
    assert after[home] == (if at.Some? then before[home] else []) + [n];
    forall i: nat, c: nat
      ensures Home(after, i, c) <==> (i == n && c == home) || Home(before, i, c)
    {
    }
    forall i: nat | i < n + 1
      ensures Housed(after, i)
    {
      if i == n {
        assert Home(after, n, home);
      } else {
        assert Housed(before, i);
        var c: nat :| Home(before, i, c);
        assert Home(after, i, c);
      }
    }
    forall c | 0 <= c < |after|
      ensures IsCluster(score, threshold, after[c])
    {
      ClustersStep(score, threshold, n, before, c);
    }
    forall c, d | 0 <= c < d < |after|
      ensures Apart(score, threshold, after[c], after[d])
    {
      ApartStep(score, threshold, n, before, c, d);
    }
  }

  /** The clusters partition the items into cliques of ascending members, and
      any two are apart. */
  lemma {:induction false} GroupedIsGood(score: Score, threshold: real, n: nat)
    ensures forall m :: 0 <= m <= n ==> GoodGroups(score, threshold, m, Grouped(score, threshold, m))
  {
    if n > 0 {
      GroupedIsGood(score, threshold, n - 1);
      GoodStep(score, threshold, n - 1, Grouped(score, threshold, n - 1), Grouped(score, threshold, n));
    }
  }

  // ---- Each item joined the closest. ----

  /** The members before the item. */
  function Before(members: seq<nat>, item: nat): seq<nat> {
    if members == [] then []
    else if members[|members| - 1] >= item then Before(members[..|members| - 1], item)
    else members
  }

  lemma {:induction false} BeforeAll(members: seq<nat>, item: nat)
    requires Ascending(members)
    ensures Before(members, item) <= members
    ensures forall i: nat :: i in Before(members, item) <==> i in members && i < item
  {
    if members != [] {
      var front := members[..|members| - 1];
      assert members == front + [members[|members| - 1]];
      BeforeAll(front, item);
    }
  }

  /** Of the clusters as they stood when the item came: the item matches all of
      this one. */
  predicate Took(score: Score, threshold: real, members: seq<nat>, item: nat) {
    Before(members, item) != [] && MatchesAll(score, threshold, Before(members, item), item)
  }

  /** The item is in cluster `c` because of those it matched in full when it came
      `c` had the closest first member, the last of them on a tie; or because it
      matched none in full, and `c` began with it. */
  predicate JoinedClosest(score: Score, threshold: real, clusters: seq<seq<nat>>, item: nat, c: nat)
    requires c < |clusters|
  {
    if Before(clusters[c], item) == [] then
      forall d :: 0 <= d < |clusters| ==> !Took(score, threshold, clusters[d], item)
    else
      && Took(score, threshold, clusters[c], item)
      && forall d :: 0 <= d < |clusters| && d != c && Took(score, threshold, clusters[d], item) ==>
           && clusters[d] != []
           && (if d < c then score(clusters[d][0], item) <= score(clusters[c][0], item)
               else score(clusters[d][0], item) < score(clusters[c][0], item))
  }

  lemma {:induction false} AllBefore(members: seq<nat>, item: nat)
    requires forall x :: 0 <= x < |members| ==> members[x] < item
    ensures Before(members, item) == members && Before(members + [item], item) == members
  {
    assert (members + [item])[..|members|] == members;
    if members != [] {
      assert members[|members| - 1] < item;
    }
  }

  lemma OlderBefore(members: seq<nat>, item: nat, late: nat)
    requires item <= late
    ensures Before(members + [late], item) == Before(members, item)
  {
    assert (members + [late])[..|members|] == members;
  }

  lemma PlacedBefore(score: Score, threshold: real, n: nat, before: seq<seq<nat>>, item: nat, d: nat)
    requires item <= n
    requires before == Grouped(score, threshold, n) && d < |Grouped(score, threshold, n + 1)|
    ensures Before(Grouped(score, threshold, n + 1)[d], item) ==
            if d < |before| then Before(before[d], item) else []
  {
    var at := Best(score, threshold, before, n, |before|);
    if at == Some(d) {
      OlderBefore(before[d], item, n);
    } else if d == |before| {
      OlderBefore([], item, n);
      assert [] + [n] == [n];
    }
  }

  /** Each item below `n` is where it belongs. */
  lemma {:induction false} JoinsClosest(score: Score, threshold: real, n: nat, item: nat, c: nat)
    requires Home(Grouped(score, threshold, n), item, c)
    ensures JoinedClosest(score, threshold, Grouped(score, threshold, n), item, c)
  {
    HomeIsBelow(score, threshold, n, item, c);
    if item == n - 1 {
      NewestJoins(score, threshold, n - 1, c);
    } else {
      JoinsClosest(score, threshold, n - 1, item, c);
      StillClosest(score, threshold, n - 1, item, c);
    }
  }

  lemma HomeIsBelow(score: Score, threshold: real, n: nat, item: nat, c: nat)
    requires Home(Grouped(score, threshold, n), item, c)
    ensures item < n && (item < n - 1 ==> Home(Grouped(score, threshold, n - 1), item, c))
  {
    GroupedIsGood(score, threshold, n);
    assert GoodGroups(score, threshold, n, Grouped(score, threshold, n));
    if n > 0 && item < n - 1 {
      PlacedHome(Grouped(score, threshold, n - 1), n - 1,
                 Best(score, threshold, Grouped(score, threshold, n - 1), n - 1, |Grouped(score, threshold, n - 1)|),
                 item, c);
    }
  }

  lemma PlacedHome(clusters: seq<seq<nat>>, newest: nat, at: Option<nat>, i: nat, c: nat)
    requires at.Some? ==> at.value < |clusters|
    ensures Home(Placed(clusters, newest, at), i, c) <==>
            Home(clusters, i, c) || (i == newest && c == if at.Some? then at.value else |clusters|)
  {
    if at.Some? && c == at.value {
      assert Placed(clusters, newest, at)[c] == clusters[c] + [newest];
    }
  }

  lemma StillClosest(score: Score, threshold: real, n: nat, item: nat, c: nat)
    requires item < n && c < |Grouped(score, threshold, n)|
    requires JoinedClosest(score, threshold, Grouped(score, threshold, n), item, c)
    ensures JoinedClosest(score, threshold, Grouped(score, threshold, n + 1), item, c)
  {
    var before, after := Grouped(score, threshold, n), Grouped(score, threshold, n + 1);
    forall d: nat | d < |after|
      ensures Before(after[d], item) == if d < |before| then Before(before[d], item) else []
      ensures d < |before| ==> after[d][0] == before[d][0]
    {
      PlacedBefore(score, threshold, n, before, item, d);
    }
  }

  lemma NewestJoins(score: Score, threshold: real, n: nat, c: nat)
    requires Home(Grouped(score, threshold, n + 1), n, c)
    ensures JoinedClosest(score, threshold, Grouped(score, threshold, n + 1), n, c)
  {
    var before, after := Grouped(score, threshold, n), Grouped(score, threshold, n + 1);
    NewestAtHome(score, threshold, n, c);
    forall d: nat | d < |after|
      ensures Before(after[d], n) == if d < |before| then before[d] else []
      ensures d < |before| ==> after[d][0] == before[d][0]
    {
      NewestBefore(score, threshold, n, d);
    }
    ClosestIs(score, threshold, before, after, n, c);
  }

  /** The best of the clusters before, as it stands after. */
  lemma ClosestIs(score: Score, threshold: real, before: seq<seq<nat>>, after: seq<seq<nat>>, n: nat, c: nat)
    requires (forall d :: 0 <= d < |before| ==> before[d] != []) && |before| <= |after| && c < |after|
    requires var at := Best(score, threshold, before, n, |before|);
             c == if at.Some? then at.value else |before|
    requires forall d :: 0 <= d < |after| ==> Before(after[d], n) == if d < |before| then before[d] else []
    requires forall d :: 0 <= d < |before| ==> after[d] != [] && after[d][0] == before[d][0]
    ensures JoinedClosest(score, threshold, after, n, c)
  {
    BestIsClosest(score, threshold, before, n, |before|);
    forall d | 0 <= d < |after|
      ensures Took(score, threshold, after[d], n) <==> d < |before| && MatchesAll(score, threshold, before[d], n)
    {
    }
  }

  lemma NewestAtHome(score: Score, threshold: real, n: nat, c: nat)
    requires Home(Grouped(score, threshold, n + 1), n, c)
    ensures var before := Grouped(score, threshold, n);
            var at := Best(score, threshold, before, n, |before|);
            c == if at.Some? then at.value else |before|
  {
    var before := Grouped(score, threshold, n);
    GroupedIsGood(score, threshold, n);
    assert GoodGroups(score, threshold, n, before);
    PlacedHome(before, n, Best(score, threshold, before, n, |before|), n, c);
  }

  lemma NewestBefore(score: Score, threshold: real, n: nat, d: nat)
    requires d < |Grouped(score, threshold, n + 1)|
    ensures var before := Grouped(score, threshold, n);
            Before(Grouped(score, threshold, n + 1)[d], n) == if d < |before| then before[d] else []
  {
    var before := Grouped(score, threshold, n);
    PlacedBefore(score, threshold, n, before, n, d);
    if d < |before| {
      GroupedIsGood(score, threshold, n);
      assert GoodGroups(score, threshold, n, before);
      MembersBelow(n, before, d);
      AllBefore(before[d], n);
    }
  }

  /** No two returned clusters can be merged into a clique. */
  lemma NoTwoMerge(score: Score, threshold: real, n: nat, c: nat, d: nat, merged: seq<nat>)
    requires c < d < |Grouped(score, threshold, n)| && Ascending(merged)
    requires forall i :: i in merged <==> i in Grouped(score, threshold, n)[c] || i in Grouped(score, threshold, n)[d]
    ensures !IsClique(score, threshold, merged)
  {
    GroupedIsGood(score, threshold, n);
    ApartDoNotMerge(score, threshold, Grouped(score, threshold, n)[c], Grouped(score, threshold, n)[d], merged);
  }

  lemma ApartDoNotMerge(score: Score, threshold: real, older: seq<nat>, younger: seq<nat>, merged: seq<nat>)
    requires Apart(score, threshold, older, younger) && Ascending(merged)
    requires forall i :: i in older || i in younger ==> i in merged
    ensures !IsClique(score, threshold, merged)
  {
    var k :| 0 <= k < |older| && older[k] < younger[0] && score(older[k], younger[0]) < threshold;
    assert older[k] in merged && younger[0] in merged;
    var x :| 0 <= x < |merged| && merged[x] == older[k];
    var y :| 0 <= y < |merged| && merged[y] == younger[0];
    assert x < y;
  }

  /** Every cluster is a single item. */
  predicate AllAlone(clusters: seq<seq<nat>>) {
    forall c :: 0 <= c < |clusters| ==> |clusters[c]| == 1
  }

  predicate NoPair(score: Score, threshold: real, n: nat) {
    forall i, j :: 0 <= i < j < n ==> score(i, j) < threshold
  }

  /** Grouping leaves every item alone exactly when no pair clears the threshold. */
  lemma AllAloneIffNoPair(score: Score, threshold: real, n: nat)
    ensures AllAlone(Grouped(score, threshold, n)) <==> NoPair(score, threshold, n)
  {
    GroupedIsGood(score, threshold, n);
    var cs := Grouped(score, threshold, n);
    if AllAlone(cs) {
      forall i, j | 0 <= i < j < n
        ensures score(i, j) < threshold
      {
        AloneIsApart(score, threshold, n, cs, i, j);
      }
    }
    forall c | 0 <= c < |cs| && |cs[c]| > 1
      ensures cs[c][0] < cs[c][1] < n && score(cs[c][0], cs[c][1]) >= threshold
    {
      MembersBelow(n, cs, c);
      assert IsCluster(score, threshold, cs[c]);
    }
    assert forall c :: 0 <= c < |cs| ==> cs[c] != [];
  }

  lemma AloneIsApart(score: Score, threshold: real, n: nat, cs: seq<seq<nat>>, i: nat, j: nat)
    requires GoodGroups(score, threshold, n, cs) && AllAlone(cs) && i < j < n
    ensures score(i, j) < threshold
  {
    assert Housed(cs, i) && Housed(cs, j);
    var c: nat :| Home(cs, i, c);
    var d: nat :| Home(cs, j, d);
    assert cs[c] == [i] && cs[d] == [j];
    if c < d {
      assert Apart(score, threshold, cs[c], cs[d]);
    }
  }
}
