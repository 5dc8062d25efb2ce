/** What one fold of a project keeps, and where repeated folds end. */
module FoldSafety {
  import opened Basics
  import opened SameFact
  import opened Fold

  // ---- A pass works cluster by cluster. ----

  lemma {:induction false} FirstCorrectedLocal(p: seq<Page>, q: seq<Page>, ids: seq<nat>)
    requires |p| == |q| && Within(|p|, ids) && forall k :: 0 <= k < |ids| ==> p[ids[k]] == q[ids[k]]
    ensures FirstCorrected(p, ids) == FirstCorrected(q, ids)
  {
    if ids != [] {
      FirstCorrectedLocal(p, q, ids[1..]);
    }
  }

  lemma FoldClusterLocal(p: seq<Page>, q: seq<Page>, ids: seq<nat>, i: nat)
    requires ids != [] && |p| == |q| && Within(|p|, ids) && i in ids
    requires forall k :: 0 <= k < |ids| ==> p[ids[k]] == q[ids[k]]
    ensures i < |p| && FoldCluster(p, ids)[i] == FoldCluster(q, ids)[i]
  {
    FirstCorrectedLocal(p, q, ids);
    assert forall k :: 0 <= k < |ids| ==> Redundant(p, ids, ids[k]) == Redundant(q, ids, ids[k]);
  }

  lemma {:induction false} UnhousedStays(pages: seq<Page>, clusters: seq<seq<nat>>, i: nat)
    requires InRange(|pages|, clusters) && i < |pages| && !Housed(clusters, i)
    ensures FoldAll(pages, clusters)[i] == pages[i]
    decreases |clusters|
  {
    if clusters != [] {
      assert !Home(clusters, i, 0);
      forall c: nat
        ensures !Home(clusters[1..], i, c)
      {
        assert !Home(clusters, i, c + 1);
      }
      UnhousedStays(FoldCluster(pages, clusters[0]), clusters[1..], i);
    }
  }

  /** A page comes out as the fold of its own cluster leaves it. */
  lemma {:induction false} FoldAllAt(pages: seq<Page>, clusters: seq<seq<nat>>, i: nat, c: nat)
    requires LiveClusters(pages, clusters) && Home(clusters, i, c)
    ensures i < |pages| && FoldAll(pages, clusters)[i] == FoldCluster(pages, clusters[c])[i]
    decreases |clusters|
  {
    var rest, next := clusters[1..], FoldCluster(pages, clusters[0]);
    FoldingKeepsRestLive(pages, clusters);
    if c == 0 {
      forall d: nat
        ensures !Home(rest, i, d)
      {
        assert Home(rest, i, d) ==> Home(clusters, i, d + 1);
      }
      UnhousedStays(next, rest, i);
    } else {
      assert Home(rest, i, c - 1);
      FoldAllAt(next, rest, i, c - 1);
      forall k | 0 <= k < |clusters[c]|
        ensures next[clusters[c][k]] == pages[clusters[c][k]]
      {
        assert Home(clusters, clusters[c][k], c) && !Home(clusters, clusters[c][k], 0);
      }
      FoldClusterLocal(pages, next, clusters[c], i);
    }
  }

  // ---- What a pass keeps. ----

  /** A human's page and a page already withdrawn come out as they went in. */
  lemma CorrectedAndGoneStay(sim: Similarity, threshold: real, pages: seq<Page>, i: nat)
    requires i < |pages| && (pages[i].corrected || !pages[i].live)
    ensures Pass(sim, threshold, pages)[i] == pages[i]
  {
    var cs := ClustersOf(sim, threshold, pages);
    ClustersAreLive(sim, threshold, pages);
    if Housed(cs, i) {
      var c: nat :| Home(cs, i, c);
      FoldAllAt(pages, cs, i, c);
    } else {
      UnhousedStays(pages, cs, i);
    }
  }

  /** Nothing changes in a cluster that holds a restored page. */
  lemma RestoredHoldsItsCluster(sim: Similarity, threshold: real, pages: seq<Page>, i: nat, j: nat, c: nat)
    requires var cs := ClustersOf(sim, threshold, pages); Home(cs, i, c) && Home(cs, j, c)
    requires j < |pages| && pages[j].restored
    ensures i < |pages| && Pass(sim, threshold, pages)[i] == pages[i]
  {
    var cs := ClustersOf(sim, threshold, pages);
    ClustersAreLive(sim, threshold, pages);
    var k :| 0 <= k < |cs[c]| && cs[c][k] == j;
    FoldAllAt(pages, cs, i, c);
  }

  /** Every cluster keeps its human's page, or else its oldest, live. */
  lemma ClusterKeepsALivePage(sim: Similarity, threshold: real, pages: seq<Page>, c: nat)
    requires c < |ClustersOf(sim, threshold, pages)|
    ensures var ids := ClustersOf(sim, threshold, pages)[c];
            && ids != [] && Within(|pages|, ids)
            && Pass(sim, threshold, pages)[Survivor(pages, ids)].live
  {
    var cs := ClustersOf(sim, threshold, pages);
    ClustersAreLive(sim, threshold, pages);
    var i := Survivor(pages, cs[c]);
    assert Home(cs, i, c);
    FoldAllAt(pages, cs, i, c);
  }

  predicate AnyCorrected(pages: seq<Page>, ids: seq<nat>) {
    exists k :: 0 <= k < |ids| && ids[k] < |pages| && pages[ids[k]].corrected
  }

  predicate AnyRestored(pages: seq<Page>, ids: seq<nat>) {
    exists k :: 0 <= k < |ids| && ids[k] < |pages| && pages[ids[k]].restored
  }

  /** What becomes of every page of a cluster: with a restored page, nothing;
      else the human's pages stay as they are and all others are withdrawn, or,
      without a human's page, the oldest takes the newest wording and all others
      are withdrawn. */
  lemma FoldOutcome(sim: Similarity, threshold: real, pages: seq<Page>, c: nat, k: nat)
    requires c < |ClustersOf(sim, threshold, pages)| && k < |ClustersOf(sim, threshold, pages)[c]|
    ensures var ids := ClustersOf(sim, threshold, pages)[c];
            && ids[k] < |pages| && ids[|ids| - 1] < |pages|
            && var page := pages[ids[k]];
               Pass(sim, threshold, pages)[ids[k]] ==
               if page.corrected || AnyRestored(pages, ids) then page
               else if k == 0 && !AnyCorrected(pages, ids) then page.(title := pages[ids[|ids| - 1]].title)
               else page.(live := false)
  {
    var cs := ClustersOf(sim, threshold, pages);
    ClustersAreLive(sim, threshold, pages);
    var ids := cs[c];
    assert Home(cs, ids[k], c);
    FoldAllAt(pages, cs, ids[k], c);
    SurvivorIs(pages, ids);
    assert Ascending(ids);
    if !Settled(pages, ids) {
      assert ids[k] in ids;
    } else if |ids| > 1 && !AnyRestored(pages, ids) {
      assert !Redundant(pages, ids, ids[k]);
      assert !Redundant(pages, ids, ids[1]);
    }
  }

  lemma SurvivorIs(pages: seq<Page>, ids: seq<nat>)
    requires ids != [] && Within(|pages|, ids)
    ensures if AnyCorrected(pages, ids) then pages[Survivor(pages, ids)].corrected else Survivor(pages, ids) == ids[0]
  {
    var fixed := FirstCorrected(pages, ids);
    if fixed.Some? {
      var k :| 0 <= k < |ids| && ids[k] == fixed.value;
      assert AnyCorrected(pages, ids);
    }
  }

  predicate Match(sim: Similarity, threshold: real, pages: seq<Page>, i: nat, j: nat)
    requires i < |pages| && j < |pages|
  {
    sim(pages[Min(i, j)].title, pages[Max(i, j)].title) >= threshold
  }

  lemma SameClusterMatch(sim: Similarity, threshold: real, pages: seq<Page>, i: nat, j: nat, c: nat)
    requires var cs := ClustersOf(sim, threshold, pages); Home(cs, i, c) && Home(cs, j, c) && i != j
    requires i < |pages| && j < |pages|
    ensures Match(sim, threshold, pages, i, j)
  {
    var items := LivePages(pages);
    var score := TitleScore(sim, pages, items);
    GroupedIsGood(score, threshold, |items|);
    LiveBelowIs(pages, |pages|);
    ClusterIsAtItems(sim, threshold, pages, c);
    var group, ids := Grouped(score, threshold, |items|)[c], ClustersOf(sim, threshold, pages)[c];
    HomeOfItem(sim, threshold, pages, i, c);
    HomeOfItem(sim, threshold, pages, j, c);
    var x :| 0 <= x < |ids| && ids[x] == i;
    var y :| 0 <= y < |ids| && ids[y] == j;
    assert IsCluster(score, threshold, group);
    if x < y {
      assert score(group[x], group[y]) >= threshold;
    } else {
      assert score(group[y], group[x]) >= threshold;
    }
  }

  /** How close two pages' titles are, the older's first. */
  function PageScore(sim: Similarity, pages: seq<Page>): Score {
    (a: nat, b: nat) => if a < |pages| && b < |pages| then sim(pages[a].title, pages[b].title) else 0.0
  }

  /** The members before a page are the items before it. */
  lemma {:induction false} BeforeAtItems(items: seq<nat>, members: seq<nat>, x: nat)
    requires Ascending(items) && Within(|items|, members) && x < |items|
    ensures Before(AtItems(items, members), items[x]) == AtItems(items, Before(members, x))
  {
    if members != [] {
      var front, last := members[..|members| - 1], members[|members| - 1];
      assert AtItems(items, members)[..|members| - 1] == AtItems(items, front);
      assert items[last] >= items[x] <==> last >= x;
      BeforeAtItems(items, front, x);
    }
  }

  lemma TookAtItems(sim: Similarity, threshold: real, pages: seq<Page>, members: seq<nat>, x: nat)
    requires Within(|LivePages(pages)|, members) && x < |LivePages(pages)|
    ensures var items := LivePages(pages);
            Took(PageScore(sim, pages), threshold, AtItems(items, members), items[x]) <==>
            Took(TitleScore(sim, pages, items), threshold, members, x)
  {
    var items := LivePages(pages);
    LiveBelowIs(pages, |pages|);
    BeforeAtItems(items, members, x);
    BeforeWithin(members, x, |items|);
    var before := Before(members, x);
    forall k | 0 <= k < |before|
      ensures PageScore(sim, pages)(AtItems(items, before)[k], items[x]) == TitleScore(sim, pages, items)(before[k], x)
    {
      assert items[before[k]] in items && items[x] in items;
    }
  }

  lemma {:induction false} BeforeWithin(members: seq<nat>, x: nat, n: nat)
    requires Within(n, members)
    ensures Within(n, Before(members, x))
  {
    if members != [] {
      BeforeWithin(members[..|members| - 1], x, n);
    }
  }

  /** Every live page is in the cluster of the closest first page among those whose
      older live pages it all matched, or began its own because it matched none so. */
  lemma PagesJoinClosest(sim: Similarity, threshold: real, pages: seq<Page>, i: nat)
    requires i < |pages| && pages[i].live
    ensures exists c: nat :: Home(ClustersOf(sim, threshold, pages), i, c)
                             && JoinedClosest(PageScore(sim, pages), threshold, ClustersOf(sim, threshold, pages), i, c)
  {
    var cs := ClustersOf(sim, threshold, pages);
    LiveIsHoused(sim, threshold, pages, i);
    var c: nat :| Home(cs, i, c);
    HomeOfItem(sim, threshold, pages, i, c);
    var x: nat :| ItemHome(sim, threshold, pages, i, c, x);
    var items := LivePages(pages);
    JoinsClosest(TitleScore(sim, pages, items), threshold, |items|, x, c);
    ClosestAtItems(sim, threshold, pages, x, c);
  }

  lemma ClosestAtItems(sim: Similarity, threshold: real, pages: seq<Page>, x: nat, c: nat)
    requires var items := LivePages(pages);
             var groups := Grouped(TitleScore(sim, pages, items), threshold, |items|);
             x < |items| && c < |groups| && JoinedClosest(TitleScore(sim, pages, items), threshold, groups, x, c)
    ensures c < |ClustersOf(sim, threshold, pages)|
    ensures JoinedClosest(PageScore(sim, pages), threshold, ClustersOf(sim, threshold, pages), LivePages(pages)[x], c)
  {
    var items, cs := LivePages(pages), ClustersOf(sim, threshold, pages);
    var groups := Grouped(TitleScore(sim, pages, items), threshold, |items|);
    forall d: nat | d < |groups|
      ensures Took(PageScore(sim, pages), threshold, cs[d], items[x]) <==>
              Took(TitleScore(sim, pages, items), threshold, groups[d], x)
      ensures Before(cs[d], items[x]) == [] <==> Before(groups[d], x) == []
      ensures cs[d] != [] && groups[d] != []
      ensures PageScore(sim, pages)(cs[d][0], items[x]) == TitleScore(sim, pages, items)(groups[d][0], x)
    {
      ClusterAtItems(sim, threshold, pages, x, d);
    }
  }

  lemma ClusterAtItems(sim: Similarity, threshold: real, pages: seq<Page>, x: nat, d: nat)
    requires x < |LivePages(pages)| && d < |ClustersOf(sim, threshold, pages)|
    ensures var items, cs := LivePages(pages), ClustersOf(sim, threshold, pages);
            var groups := Grouped(TitleScore(sim, pages, items), threshold, |items|);
            && d < |groups| && cs[d] != [] && groups[d] != []
            && (Took(PageScore(sim, pages), threshold, cs[d], items[x]) <==>
                Took(TitleScore(sim, pages, items), threshold, groups[d], x))
            && (Before(cs[d], items[x]) == [] <==> Before(groups[d], x) == [])
            && PageScore(sim, pages)(cs[d][0], items[x]) == TitleScore(sim, pages, items)(groups[d][0], x)
  {
    var items, cs := LivePages(pages), ClustersOf(sim, threshold, pages);
    var groups := Grouped(TitleScore(sim, pages, items), threshold, |items|);
    LiveBelowIs(pages, |pages|);
    ClusterIsAtItems(sim, threshold, pages, d);
    TookAtItems(sim, threshold, pages, groups[d], x);
    BeforeAtItems(items, groups[d], x);
    assert items[groups[d][0]] in items && items[x] in items;
  }

  /** A page is withdrawn only while another page whose title matched its own
      stays live. */
  lemma WithdrawnHasALiveMatch(sim: Similarity, threshold: real, pages: seq<Page>, i: nat)
    requires i < |pages| && pages[i].live && !Pass(sim, threshold, pages)[i].live
    ensures !pages[i].corrected && !pages[i].restored
    ensures exists j: nat :: j < |pages| && j != i && pages[j].live && Pass(sim, threshold, pages)[j].live
                             && Match(sim, threshold, pages, i, j)
  {
    var cs := ClustersOf(sim, threshold, pages);
    ClustersAreLive(sim, threshold, pages);
    LiveIsHoused(sim, threshold, pages, i);
    var c: nat :| Home(cs, i, c);
    FoldAllAt(pages, cs, i, c);
    ClusterKeepsALivePage(sim, threshold, pages, c);
    var j := Survivor(pages, cs[c]);
    assert Home(cs, j, c) && pages[j].live;
    SameClusterMatch(sim, threshold, pages, i, j, c);
  }

  predicate AllSettled(pages: seq<Page>, clusters: seq<seq<nat>>) {
    InRange(|pages|, clusters) && forall c :: 0 <= c < |clusters| ==> Settled(pages, clusters[c])
  }

  /** A pass leaves the project as it is exactly when every cluster is settled. */
  lemma UnchangedIffSettled(sim: Similarity, threshold: real, pages: seq<Page>)
    ensures Pass(sim, threshold, pages) == pages <==> AllSettled(pages, ClustersOf(sim, threshold, pages))
  {
    var cs := ClustersOf(sim, threshold, pages);
    ClustersAreLive(sim, threshold, pages);
    if AllSettled(pages, cs) {
      SettledStays(pages, cs);
    }
    forall c | 0 <= c < |cs| && !Settled(pages, cs[c])
      ensures Pass(sim, threshold, pages) != pages
    {
      UnsettledFalls(sim, threshold, pages, c);
    }
  }

  /** An unsettled cluster loses a live page. */
  lemma UnsettledFalls(sim: Similarity, threshold: real, pages: seq<Page>, c: nat)
    requires var cs := ClustersOf(sim, threshold, pages);
             c < |cs| && cs[c] != [] && Within(|pages|, cs[c]) && !Settled(pages, cs[c])
    ensures exists i: nat :: i < |pages| && pages[i].live && !Pass(sim, threshold, pages)[i].live
  {
    var cs := ClustersOf(sim, threshold, pages);
    ClustersAreLive(sim, threshold, pages);
    var k :| 0 <= k < |cs[c]| && Redundant(pages, cs[c], cs[c][k]);
    var i := cs[c][k];
    assert Home(cs, i, c);
    FoldAllAt(pages, cs, i, c);
  }

  // ---- Repeated passes. ----

  lemma {:induction false} FewerLive(p: seq<Page>, q: seq<Page>, k: nat)
    requires |p| == |q| && k <= |p| && forall i :: 0 <= i < |p| ==> (q[i].live ==> p[i].live)
    ensures var fewer := exists i :: 0 <= i < k && p[i].live && !q[i].live;
            |LiveBelow(q, k)| + (if fewer then 1 else 0) <= |LiveBelow(p, k)|
  {
    if k > 0 {
      FewerLive(p, q, k - 1);
    }
  }

  /** A pass brings nothing back, and one that changes anything withdraws a page. */
  lemma PassFalls(sim: Similarity, threshold: real, pages: seq<Page>)
    ensures LiveCount(Pass(sim, threshold, pages)) <= LiveCount(pages)
    ensures Pass(sim, threshold, pages) != pages ==> LiveCount(Pass(sim, threshold, pages)) < LiveCount(pages)
  {
    var after, cs := Pass(sim, threshold, pages), ClustersOf(sim, threshold, pages);
    ClustersAreLive(sim, threshold, pages);
    forall i: nat | i < |pages| && !pages[i].live
      ensures !after[i].live
    {
      CorrectedAndGoneStay(sim, threshold, pages, i);
    }
    UnchangedIffSettled(sim, threshold, pages);
    if after != pages {
      var c :| 0 <= c < |cs| && !Settled(pages, cs[c]);
      UnsettledFalls(sim, threshold, pages, c);
    }
    FewerLive(pages, after, |pages|);
  }

  function Iterate(f: seq<Page> -> seq<Page>, pages: seq<Page>, k: nat): seq<Page> {
    if k == 0 then pages else f(Iterate(f, pages, k - 1))
  }

  /** Each step either changes nothing or withdraws a page, and nothing is left
      to do for fewer than two. */
  ghost predicate Falls(f: seq<Page> -> seq<Page>) {
    && (forall p :: f(p) != p ==> LiveCount(f(p)) < LiveCount(p))
    && (forall p :: LiveCount(p) < 2 ==> f(p) == p)
  }

  lemma {:induction false} IterateFalls(f: seq<Page> -> seq<Page>, pages: seq<Page>, k: nat)
    requires Falls(f)
    ensures var now := Iterate(f, pages, k); f(now) == now || LiveCount(now) + k <= LiveCount(pages)
  {
    if k > 0 {
      IterateFalls(f, pages, k - 1);
    }
  }

  lemma {:induction false} FixedStays(f: seq<Page> -> seq<Page>, pages: seq<Page>, k: nat, m: nat)
    requires f(Iterate(f, pages, k)) == Iterate(f, pages, k) && k <= m
    ensures Iterate(f, pages, m) == Iterate(f, pages, k)
    decreases m
  {
    if m > k {
      FixedStays(f, pages, k, m - 1);
    }
  }

  function FoldOf(sim: Similarity, threshold: real): seq<Page> -> seq<Page> {
    pages => Pass(sim, threshold, pages)
  }

  lemma FoldFalls(sim: Similarity, threshold: real)
    ensures Falls(FoldOf(sim, threshold))
  {
    forall p
      ensures Pass(sim, threshold, p) != p ==> LiveCount(Pass(sim, threshold, p)) < LiveCount(p)
      ensures LiveCount(p) < 2 ==> Pass(sim, threshold, p) == p
    {
      PassFalls(sim, threshold, p);
      if LiveCount(p) < 2 {
        FewAreSettled(sim, threshold, p);
      }
    }
  }

  /** Survivors are reworded and may match anew, yet fewer passes than there
      are live pages reach a project that no later pass changes. */
  lemma PassesSettle(sim: Similarity, threshold: real, pages: seq<Page>, m: nat)
    requires m + 1 >= LiveCount(pages)
    ensures var last := Iterate(FoldOf(sim, threshold), pages, SaturatingSub(LiveCount(pages), 1));
            Pass(sim, threshold, last) == last && Iterate(FoldOf(sim, threshold), pages, m) == last
  {
    var k := SaturatingSub(LiveCount(pages), 1);
    FoldFalls(sim, threshold);
    IterateFalls(FoldOf(sim, threshold), pages, k);
    FixedStays(FoldOf(sim, threshold), pages, k, m);
  }

  // ---- When one pass is enough. ----

  /** A group no pass reduces: one page, or one beside a restored page, or all
      of them a human's. */
  predicate Quiet(pages: seq<Page>, ids: seq<nat>) {
    || |ids| == 1 || AnyRestored(pages, ids)
    || (forall k :: 0 <= k < |ids| ==> ids[k] < |pages| && pages[ids[k]].corrected)
  }

  lemma QuietIffSettled(pages: seq<Page>, ids: seq<nat>)
    requires ids != [] && Within(|pages|, ids) && Ascending(ids)
    ensures Quiet(pages, ids) <==> Settled(pages, ids)
  {
    SurvivorIs(pages, ids);
    if |ids| > 1 && !AnyRestored(pages, ids) {
      assert Redundant(pages, ids, ids[1]) <==> ids[1] != Survivor(pages, ids) && !pages[ids[1]].corrected;
      forall k | 0 <= k < |ids|
        ensures AnyCorrected(pages, ids) ==> (Redundant(pages, ids, ids[k]) <==> !pages[ids[k]].corrected)
      {
      }
    }
  }

  /** The cluster that holds the page; none for a page withdrawn before. */
  function ClusterOf(clusters: seq<seq<nat>>, i: nat): seq<nat> {
    if clusters == [] then []
    else if i in clusters[0] then clusters[0]
    else ClusterOf(clusters[1..], i)
  }

  /** The page outlives the fold of its cluster. */
  predicate Outlives(pages: seq<Page>, ids: seq<nat>, i: nat)
    requires i < |pages|
  {
    i in ids && (pages[i].corrected || AnyRestored(pages, ids) || (i == ids[0] && !AnyCorrected(pages, ids)))
  }

  /** The page in the wording the fold leaves it, or nothing. */
  function Left(pages: seq<Page>, ids: seq<nat>, i: nat): seq<Page>
    requires i < |pages| && Within(|pages|, ids)
  {
    if !Outlives(pages, ids, i) then []
    else if pages[i].corrected || AnyRestored(pages, ids) then [pages[i]]
    else [pages[i].(title := pages[ids[|ids| - 1]].title)]
  }

  /** The pages that outlive a fold of these clusters, among the first `k`, in
      the wording it leaves them. */
  function Outliving(pages: seq<Page>, clusters: seq<seq<nat>>, k: nat): seq<Page>
    requires InRange(|pages|, clusters) && k <= |pages|
  {
    if k == 0 then []
    else
      ClusterOfIs(|pages|, clusters, k - 1);
      Outliving(pages, clusters, k - 1) + Left(pages, ClusterOf(clusters, k - 1), k - 1)
  }

  lemma {:induction false} ClusterOfIs(n: nat, clusters: seq<seq<nat>>, i: nat)
    requires InRange(n, clusters)
    ensures var ids := ClusterOf(clusters, i);
            (ids == [] && !Housed(clusters, i)) || exists c: nat :: Home(clusters, i, c) && clusters[c] == ids
  {
    if clusters != [] {
      ClusterOfIs(n, clusters[1..], i);
      if i in clusters[0] {
        assert Home(clusters, i, 0);
      } else if c: nat :| Home(clusters[1..], i, c) && clusters[1..][c] == ClusterOf(clusters[1..], i) {
        assert Home(clusters, i, c + 1);
      } else {
        forall c: nat
          ensures !Home(clusters, i, c)
        {
          assert c > 0 ==> !Home(clusters[1..], i, c - 1);
        }
      }
    }
  }

  function Survivors(sim: Similarity, threshold: real, pages: seq<Page>): seq<Page> {
    ClustersAreLive(sim, threshold, pages);
    Outliving(pages, ClustersOf(sim, threshold, pages), |pages|)
  }

  /** The page `after` has here is what the fold of its cluster leaves. */
  predicate LeavesAt(pages: seq<Page>, clusters: seq<seq<nat>>, after: seq<Page>, i: nat) {
    && i < |pages| && i < |after| && Within(|pages|, ClusterOf(clusters, i))
    && Left(pages, ClusterOf(clusters, i), i) == if after[i].live then [after[i]] else []
  }

  /** One page's part of a pass. */
  lemma LeftIs(sim: Similarity, threshold: real, pages: seq<Page>, i: nat)
    requires i < |pages|
    ensures LeavesAt(pages, ClustersOf(sim, threshold, pages), Pass(sim, threshold, pages), i)
  {
    var cs := ClustersOf(sim, threshold, pages);
    ClustersAreLive(sim, threshold, pages);
    ClusterOfIs(|pages|, cs, i);
    if pages[i].live {
      LiveIsHoused(sim, threshold, pages, i);
      var c: nat :| Home(cs, i, c) && cs[c] == ClusterOf(cs, i);
      var k :| 0 <= k < |cs[c]| && cs[c][k] == i;
      FoldOutcome(sim, threshold, pages, c, k);
      assert Ascending(cs[c]);
    } else {
      CorrectedAndGoneStay(sim, threshold, pages, i);
    }
  }

  lemma {:induction false} OutlivingAreLive(pages: seq<Page>, clusters: seq<seq<nat>>, after: seq<Page>, k: nat)
    requires InRange(|pages|, clusters) && k <= |pages| == |after|
    requires forall i: nat :: i < k ==> LeavesAt(pages, clusters, after, i)
    ensures Outliving(pages, clusters, k) == At(after, LiveBelow(after, k))
  {
    if k > 0 {
      OutlivingAreLive(pages, clusters, after, k - 1);
      AtOneMore(after, k - 1);
      assert LeavesAt(pages, clusters, after, k - 1);
    }
  }

  lemma AtOneMore(pages: seq<Page>, k: nat)
    requires k < |pages|
    ensures At(pages, LiveBelow(pages, k + 1)) ==
            At(pages, LiveBelow(pages, k)) + (if pages[k].live then [pages[k]] else [])
  {
  }

  /** The pages at these positions. */
  function At(pages: seq<Page>, items: seq<nat>): (r: seq<Page>)
    ensures |r| == |items|
  {
    seq(|items|, x requires 0 <= x < |items| => if items[x] < |pages| then pages[items[x]] else FreshPage(""))
  }

  lemma {:induction false} AllLive(pages: seq<Page>, k: nat)
    requires k <= |pages| && forall i :: 0 <= i < k ==> pages[i].live
    ensures LiveBelow(pages, k) == seq(k, i => i)
  {
    if k > 0 {
      AllLive(pages, k - 1);
    }
  }

  /** The survivors are the live pages after the pass, closed up. */
  lemma SurvivorsAre(sim: Similarity, threshold: real, pages: seq<Page>)
    ensures var after, left := Pass(sim, threshold, pages), Survivors(sim, threshold, pages);
            At(left, LivePages(left)) == At(after, LivePages(after))
  {
    var after, left := Pass(sim, threshold, pages), Survivors(sim, threshold, pages);
    ClustersAreLive(sim, threshold, pages);
    forall i: nat | i < |pages|
      ensures LeavesAt(pages, ClustersOf(sim, threshold, pages), after, i)
    {
      LeftIs(sim, threshold, pages, i);
    }
    OutlivingAreLive(pages, ClustersOf(sim, threshold, pages), after, |pages|);
    LiveBelowIs(after, |after|);
    forall x | 0 <= x < |left|
      ensures left[x].live
    {
      assert LivePages(after)[x] in LivePages(after);
    }
    AllLive(left, |left|);
  }

  predicate Agree(s: Score, t: Score, n: nat) {
    forall a, b :: 0 <= a < n && 0 <= b < n ==> s(a, b) == t(a, b)
  }

  lemma {:induction false} BestAgrees(
      s: Score, t: Score, n: nat, threshold: real, clusters: seq<seq<nat>>, item: nat, k: nat)
    requires Agree(s, t, n) && item < n && InRange(n, clusters) && k <= |clusters|
    ensures Best(s, threshold, clusters, item, k) == Best(t, threshold, clusters, item, k)
  {
    if k > 0 {
      BestAgrees(s, t, n, threshold, clusters, item, k - 1);
      assert Within(n, clusters[k - 1]);
    }
  }

  lemma {:induction false} GroupedAgrees(s: Score, t: Score, n: nat, threshold: real, k: nat)
    requires Agree(s, t, n) && k <= n
    ensures Grouped(s, threshold, k) == Grouped(t, threshold, k)
  {
    if k > 0 {
      GroupedAgrees(s, t, n, threshold, k - 1);
      var before := Grouped(s, threshold, k - 1);
      GroupedInRange(s, n, threshold, k - 1);
      BestAgrees(s, t, n, threshold, before, k - 1, |before|);
    }
  }

  lemma GroupedInRange(s: Score, n: nat, threshold: real, k: nat)
    requires k <= n
    ensures InRange(n, Grouped(s, threshold, k))
  {
    var groups := Grouped(s, threshold, k);
    GroupedIsGood(s, threshold, k);
    forall c, x | 0 <= c < |groups| && 0 <= x < |groups[c]|
      ensures groups[c][x] < n
    {
      assert Home(groups, groups[c][x], c);
    }
  }

  predicate AllQuiet(pages: seq<Page>, clusters: seq<seq<nat>>) {
    forall c :: 0 <= c < |clusters| ==> Quiet(pages, clusters[c])
  }

  /** Pages withdrawn before make no difference to how the live ones group. */
  lemma OnlyLiveCount(sim: Similarity, threshold: real, p: seq<Page>, q: seq<Page>)
    requires At(p, LivePages(p)) == At(q, LivePages(q))
    ensures AllQuiet(p, ClustersOf(sim, threshold, p)) <==> AllQuiet(q, ClustersOf(sim, threshold, q))
  {
    var n := LiveCount(p);
    assert |At(p, LivePages(p))| == |At(q, LivePages(q))|;
    forall x | 0 <= x < n
      ensures LivePages(p)[x] < |p| && LivePages(q)[x] < |q| && p[LivePages(p)[x]] == q[LivePages(q)[x]]
    {
      SameAt(p, q, x);
    }
    GroupedAgrees(TitleScore(sim, p, LivePages(p)), TitleScore(sim, q, LivePages(q)), n, threshold, n);
    forall c | 0 <= c < |ClustersOf(sim, threshold, p)|
      ensures Quiet(p, ClustersOf(sim, threshold, p)[c]) <==> Quiet(q, ClustersOf(sim, threshold, q)[c])
    {
      SameQuiet(sim, threshold, p, q, c);
    }
  }

  predicate HasAt(pages: seq<Page>, i: nat, page: Page) {
    i < |pages| && pages[i] == page
  }

  lemma SameAt(p: seq<Page>, q: seq<Page>, x: nat)
    requires At(p, LivePages(p)) == At(q, LivePages(q)) && x < LiveCount(p) == LiveCount(q)
    ensures exists page :: HasAt(p, LivePages(p)[x], page) && HasAt(q, LivePages(q)[x], page)
  {
    LiveBelowIs(p, |p|);
    LiveBelowIs(q, |q|);
    assert LivePages(p)[x] in LivePages(p) && LivePages(q)[x] in LivePages(q);
    var i, j := LivePages(p)[x], LivePages(q)[x];
    assert At(p, LivePages(p))[x] == At(q, LivePages(q))[x];
    assert HasAt(p, i, p[i]) && HasAt(q, j, p[i]);
  }

  lemma SameQuiet(sim: Similarity, threshold: real, p: seq<Page>, q: seq<Page>, c: nat)
    requires At(p, LivePages(p)) == At(q, LivePages(q))
    requires Grouped(TitleScore(sim, p, LivePages(p)), threshold, LiveCount(p))
          == Grouped(TitleScore(sim, q, LivePages(q)), threshold, LiveCount(q))
    requires c < |ClustersOf(sim, threshold, p)| && c < |ClustersOf(sim, threshold, q)|
    ensures Quiet(p, ClustersOf(sim, threshold, p)[c]) <==> Quiet(q, ClustersOf(sim, threshold, q)[c])
  {
    var groups := Grouped(TitleScore(sim, p, LivePages(p)), threshold, LiveCount(p));
    var a, b := ClustersOf(sim, threshold, p)[c], ClustersOf(sim, threshold, q)[c];
    assert |At(p, LivePages(p))| == |At(q, LivePages(q))|;
    GroupedIsGood(TitleScore(sim, p, LivePages(p)), threshold, LiveCount(p));
    forall k | 0 <= k < |groups[c]|
      ensures a[k] < |p| && b[k] < |q| && p[a[k]] == q[b[k]]
    {
      assert Home(groups, groups[c][k], c);
      SameAt(p, q, groups[c][k]);
    }
  }

  /** For every project: a second pass has nothing to do exactly when the
      survivors of the clusters - each human's page, the pages beside a restored
      one, else the oldest in the newest wording - form only quiet groups when
      grouped among themselves. */
  lemma SecondPassIdleIff(sim: Similarity, threshold: real, pages: seq<Page>)
    ensures var after, left := Pass(sim, threshold, pages), Survivors(sim, threshold, pages);
            Pass(sim, threshold, after) == after <==> AllQuiet(left, ClustersOf(sim, threshold, left))
  {
    var after := Pass(sim, threshold, pages);
    SurvivorsAre(sim, threshold, pages);
    OnlyLiveCount(sim, threshold, after, Survivors(sim, threshold, pages));
    var groups := ClustersOf(sim, threshold, after);
    UnchangedIffSettled(sim, threshold, after);
    ClustersAreLive(sim, threshold, after);
    forall c | 0 <= c < |groups|
      ensures Quiet(after, groups[c]) <==> Settled(after, groups[c])
    {
      QuietIffSettled(after, groups[c]);
    }
  }

  /** No human has worded or restored a live page. */
  predicate Untouched(pages: seq<Page>) {
    forall i :: 0 <= i < |pages| && pages[i].live ==> !pages[i].corrected && !pages[i].restored
  }

  predicate Fresh(page: Page) {
    page.live && !page.corrected && !page.restored
  }

  lemma {:induction false} OutlivingAreFresh(pages: seq<Page>, clusters: seq<seq<nat>>, k: nat)
    requires Untouched(pages) && LiveClusters(pages, clusters) && k <= |pages|
    ensures AllFresh(Outliving(pages, clusters, k))
  {
    if k > 0 {
      OutlivingAreFresh(pages, clusters, k - 1);
      ClusterOfIs(|pages|, clusters, k - 1);
      LeftIsFresh(pages, clusters, k - 1);
    }
  }

  lemma LeftIsFresh(pages: seq<Page>, clusters: seq<seq<nat>>, i: nat)
    requires Untouched(pages) && LiveClusters(pages, clusters) && i < |pages|
    requires Within(|pages|, ClusterOf(clusters, i))
    ensures AllFresh(Left(pages, ClusterOf(clusters, i), i))
  {
    ClusterOfIs(|pages|, clusters, i);
    if i in ClusterOf(clusters, i) {
      var c: nat :| Home(clusters, i, c);
      assert Fresh(pages[i]);
    }
  }

  predicate NoTwoMatch(sim: Similarity, threshold: real, pages: seq<Page>) {
    forall i, j :: 0 <= i < j < |pages| ==> !Match(sim, threshold, pages, i, j)
  }

  predicate AllFresh(pages: seq<Page>) {
    forall i :: 0 <= i < |pages| ==> Fresh(pages[i])
  }

  /** Fresh pages form only quiet groups exactly when no two of them match. */
  lemma QuietIffNoMatch(sim: Similarity, threshold: real, pages: seq<Page>)
    requires AllFresh(pages)
    ensures AllQuiet(pages, ClustersOf(sim, threshold, pages)) <==> NoTwoMatch(sim, threshold, pages)
  {
    var cs := ClustersOf(sim, threshold, pages);
    AllLive(pages, |pages|);
    var groups := Grouped(TitleScore(sim, pages, LivePages(pages)), threshold, |pages|);
    AllAloneIffNoPair(TitleScore(sim, pages, LivePages(pages)), threshold, |pages|);
    FreshPairs(sim, threshold, pages);
    ClustersAreLive(sim, threshold, pages);
    forall c | 0 <= c < |cs|
      ensures Quiet(pages, cs[c]) <==> |groups[c]| == 1
    {
      FreshQuiet(pages, cs[c]);
    }
  }

  lemma FreshQuiet(pages: seq<Page>, ids: seq<nat>)
    requires AllFresh(pages) && ids != [] && Within(|pages|, ids)
    ensures Quiet(pages, ids) <==> |ids| == 1
  {
    assert Fresh(pages[ids[0]]);
  }

  lemma FreshPairs(sim: Similarity, threshold: real, pages: seq<Page>)
    requires LivePages(pages) == seq(|pages|, i => i)
    ensures NoPair(TitleScore(sim, pages, LivePages(pages)), threshold, |pages|) <==> NoTwoMatch(sim, threshold, pages)
  {
    var score := TitleScore(sim, pages, LivePages(pages));
    forall i: nat, j: nat | i < j < |pages|
      ensures score(i, j) < threshold <==> !Match(sim, threshold, pages, i, j)
    {
    }
  }

  /** Without human pages one pass is enough exactly when no two survivors, in
      the newest wordings of their clusters, match. */
  lemma OnePassEnoughIff(sim: Similarity, threshold: real, pages: seq<Page>)
    requires Untouched(pages)
    ensures var after := Pass(sim, threshold, pages);
            Pass(sim, threshold, after) == after <==> NoTwoMatch(sim, threshold, Survivors(sim, threshold, pages))
  {
    ClustersAreLive(sim, threshold, pages);
    OutlivingAreFresh(pages, ClustersOf(sim, threshold, pages), |pages|);
    QuietIffNoMatch(sim, threshold, Survivors(sim, threshold, pages));
    SecondPassIdleIff(sim, threshold, pages);
  }

  predicate Adjacent(a: string, b: string) {
    (a == "a" && b == "b") || (a == "b" && b == "c")
  }

  /** Three titles, each close to itself and to its neighbours only. */
  function Chain(a: string, b: string): real {
    if a == b || Adjacent(a, b) || Adjacent(b, a) then 1.0 else 0.0
  }

  function FreshPage(title: string): Page {
    Page(title, true, false, false)
  }

  lemma ChainItems(pages: seq<Page>)
    requires pages == [FreshPage("a"), FreshPage("b"), FreshPage("c")]
    ensures LivePages(pages) == [0, 1, 2]
  {
    assert LiveBelow(pages, 1) == [0];
    assert LiveBelow(pages, 2) == [0, 1];
  }

  lemma ChainGroups(score: Score)
    requires score(0, 1) == 1.0 && score(0, 2) == 0.0
    ensures Grouped(score, 1.0, 3) == [[0, 1], [2]]
  {
    assert Grouped(score, 1.0, 1) == [[0]];
    assert MatchesAll(score, 1.0, [0], 1);
    assert Best(score, 1.0, [[0]], 1, 1) == Some(0);
    assert [0] + [1] == [0, 1];
    assert Placed([[0]], 1, Some(0)) == [[0, 1]];
    assert Grouped(score, 1.0, 2) == [[0, 1]];
    assert !MatchesAll(score, 1.0, [0, 1], 2) by {
      assert score([0, 1][0], 2) < 1.0;
    }
    assert Best(score, 1.0, [[0, 1]], 2, 1) == None;
  }

  lemma ChainClusters(pages: seq<Page>)
    requires pages == [FreshPage("a"), FreshPage("b"), FreshPage("c")]
    ensures ClustersOf(Chain, 1.0, pages) == [[0, 1], [2]]
  {
    ChainItems(pages);
    var score := TitleScore(Chain, pages, LivePages(pages));
    assert score(0, 1) == Chain("a", "b") && score(0, 2) == Chain("a", "c");
    assert "a"[0] == 'a' && "b"[0] == 'b' && "c"[0] == 'c';
    ChainGroups(score);
    var cs := ClustersOf(Chain, 1.0, pages);
    assert cs[0] == [0, 1] && cs[1] == [2];
  }

  lemma ChainOutlives(pages: seq<Page>, clusters: seq<seq<nat>>)
    requires pages == [FreshPage("a"), FreshPage("b"), FreshPage("c")] && clusters == [[0, 1], [2]]
    ensures Outliving(pages, clusters, 3) == [FreshPage("b"), FreshPage("c")]
  {
    assert clusters[1..] == [[2]];
    assert ClusterOf([[2]], 2) == [2];
    assert ClusterOf(clusters, 0) == ClusterOf(clusters, 1) == [0, 1] && ClusterOf(clusters, 2) == [2];
    assert Left(pages, [0, 1], 0) == [FreshPage("b")];
    assert Left(pages, [0, 1], 1) == [];
    assert Left(pages, [2], 2) == [FreshPage("c")];
    assert Outliving(pages, clusters, 1) == [FreshPage("b")];
    assert Outliving(pages, clusters, 2) == [FreshPage("b")];
  }

  lemma ChainSurvivors(pages: seq<Page>)
    requires pages == [FreshPage("a"), FreshPage("b"), FreshPage("c")]
    ensures Survivors(Chain, 1.0, pages) == [FreshPage("b"), FreshPage("c")]
  {
    ChainClusters(pages);
    ClustersAreLive(Chain, 1.0, pages);
    ChainOutlives(pages, ClustersOf(Chain, 1.0, pages));
  }

  /** The comment on the fold calls it idempotent.  Three pages show that it
      is not: the first takes the second's wording, which matches the third. */
  lemma OnePassIsNotAlwaysEnough()
    ensures var pages := [FreshPage("a"), FreshPage("b"), FreshPage("c")];
            && Untouched(pages)
            && Pass(Chain, 1.0, Pass(Chain, 1.0, pages)) != Pass(Chain, 1.0, pages)
  {
    var pages := [FreshPage("a"), FreshPage("b"), FreshPage("c")];
    ChainSurvivors(pages);
    OnePassEnoughIff(Chain, 1.0, pages);
    assert Match(Chain, 1.0, [FreshPage("b"), FreshPage("c")], 0, 1);
  }
}
