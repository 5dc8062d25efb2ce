/** Folding knowledge pages that carry one claim.

    The pages of a project stand in id order, so a lower position is an older
    page; `sim` is how close two titles are. */
module Fold {
  import opened Basics
  import opened SameFact

  datatype Page = Page(
    title: string,
    live: bool,
    corrected: bool,                    // a human fixed its wording
    restored: bool)                     // `brain restore` brought it back

  type Similarity = (string, string) -> real

  // ---- One pass, as a function. ----

  /** The positions of the live pages among the first `k`, oldest first. */
  function LiveBelow(pages: seq<Page>, k: nat): seq<nat>
    requires k <= |pages|
  {
    if k == 0 then []
    else LiveBelow(pages, k - 1) + (if pages[k - 1].live then [k - 1] else [])
  }

  function LivePages(pages: seq<Page>): seq<nat> {
    LiveBelow(pages, |pages|)
  }

  function LiveCount(pages: seq<Page>): nat {
    |LivePages(pages)|
  }

  lemma {:induction false} LiveBelowIs(pages: seq<Page>, k: nat)
    requires k <= |pages|
    ensures Ascending(LiveBelow(pages, k))
    ensures forall i: nat :: i in LiveBelow(pages, k) <==> i < k && pages[i].live
  {
    if k > 0 {
      LiveBelowIs(pages, k - 1);
      var before := LiveBelow(pages, k - 1);
      assert forall x :: 0 <= x < |before| ==> before[x] in before;
    }
  }

  function FirstCorrected(pages: seq<Page>, ids: seq<nat>): (r: Option<nat>)
    requires Within(|pages|, ids)
    ensures r.Some? ==> r.value in ids && pages[r.value].corrected
    ensures r.None? ==> forall k :: 0 <= k < |ids| ==> !pages[ids[k]].corrected
  {
    if ids == [] then None
    else if pages[ids[0]].corrected then Some(ids[0])
    else FirstCorrected(pages, ids[1..])
  }

  /** A human's page whatever its age, else the oldest. */
  function Survivor(pages: seq<Page>, ids: seq<nat>): (i: nat)
    requires ids != [] && Within(|pages|, ids)
    ensures i in ids
  {
    var fixed := FirstCorrected(pages, ids);
    if fixed.Some? then fixed.value else ids[0]
  }

  predicate Redundant(pages: seq<Page>, ids: seq<nat>, i: nat)
    requires ids != [] && Within(|pages|, ids)
  {
    i in ids && i != Survivor(pages, ids) && !pages[i].corrected
  }

  /** The pass leaves this cluster as it is. */
  predicate Settled(pages: seq<Page>, ids: seq<nat>)
    requires ids != [] && Within(|pages|, ids)
  {
    || |ids| < 2
    || (exists k :: 0 <= k < |ids| && pages[ids[k]].restored)
    || (forall k :: 0 <= k < |ids| ==> !Redundant(pages, ids, ids[k]))
  }

  /** One page after its cluster was folded: the survivor takes the newest
      wording unless a human worded it; the redundant are withdrawn. */
  function FoldedPage(pages: seq<Page>, ids: seq<nat>, i: nat): Page
    requires ids != [] && Within(|pages|, ids) && i < |pages|
  {
    if i == Survivor(pages, ids) then
      (if pages[i].corrected then pages[i] else pages[i].(title := pages[ids[|ids| - 1]].title))
    else if Redundant(pages, ids, i) then pages[i].(live := false)
    else pages[i]
  }

  function FoldCluster(pages: seq<Page>, ids: seq<nat>): (r: seq<Page>)
    requires ids != [] && Within(|pages|, ids)
    ensures |r| == |pages|
  {
    if Settled(pages, ids) then pages
    else seq(|pages|, i requires 0 <= i < |pages| => FoldedPage(pages, ids, i))
  }

  predicate InRange(n: nat, clusters: seq<seq<nat>>) {
    forall c :: 0 <= c < |clusters| ==> clusters[c] != [] && Within(n, clusters[c])
  }

  function FoldAll(pages: seq<Page>, clusters: seq<seq<nat>>): (r: seq<Page>)
    requires InRange(|pages|, clusters)
    ensures |r| == |pages|
    decreases |clusters|
  {
    if clusters == [] then pages else FoldAll(FoldCluster(pages, clusters[0]), clusters[1..])
  }

  function TitleScore(sim: Similarity, pages: seq<Page>, items: seq<nat>): Score {
    (a: nat, b: nat) => if a < |items| && b < |items| && items[a] < |pages| && items[b] < |pages|
              then sim(pages[items[a]].title, pages[items[b]].title) else 0.0
  }

  function AtItems(items: seq<nat>, members: seq<nat>): seq<nat> {
    seq(|members|, x requires 0 <= x < |members| => if members[x] < |items| then items[members[x]] else 0)
  }

  /** The clusters of the live pages, as page positions. */
  function ClustersOf(sim: Similarity, threshold: real, pages: seq<Page>): seq<seq<nat>> {
    var items := LivePages(pages);
    var groups := Grouped(TitleScore(sim, pages, items), threshold, |items|);
    seq(|groups|, c requires 0 <= c < |groups| => AtItems(items, groups[c]))
  }

  /** Clusters of live pages, ascending, none sharing a page. */
  ghost predicate LiveClusters(pages: seq<Page>, clusters: seq<seq<nat>>) {
    && InRange(|pages|, clusters)
    && (forall c :: 0 <= c < |clusters| ==> Ascending(clusters[c]))
    && (forall i: nat, c: nat :: Home(clusters, i, c) ==>
          pages[i].live && forall d: nat :: Home(clusters, i, d) ==> c == d)
  }

  lemma ClusterIsAtItems(sim: Similarity, threshold: real, pages: seq<Page>, c: nat)
    requires c < |ClustersOf(sim, threshold, pages)|
    ensures var items, cs := LivePages(pages), ClustersOf(sim, threshold, pages);
            var groups := Grouped(TitleScore(sim, pages, items), threshold, |items|);
            && |groups| == |cs| && |groups[c]| == |cs[c]| && cs[c] != [] && Ascending(cs[c])
            && (forall x :: 0 <= x < |cs[c]| ==> groups[c][x] < |items| && cs[c][x] == items[groups[c][x]])
  {
    var items := LivePages(pages);
    var score := TitleScore(sim, pages, items);
    LiveBelowIs(pages, |pages|);
    GroupedIsGood(score, threshold, |items|);
    var groups := Grouped(score, threshold, |items|);
    MembersBelow(|items|, groups, c);
    assert IsCluster(score, threshold, groups[c]);
  }

  /** Item `g` is page `i`, which is live, and is in cluster `c`. */
  ghost predicate ItemHome(sim: Similarity, threshold: real, pages: seq<Page>, i: nat, c: nat, g: nat) {
    var items := LivePages(pages);
    g < |items| && items[g] == i && i < |pages| && pages[i].live
    && Home(Grouped(TitleScore(sim, pages, items), threshold, |items|), g, c)
  }

  /** A page's cluster is its item's. */
  lemma HomeOfItem(sim: Similarity, threshold: real, pages: seq<Page>, i: nat, c: nat)
    requires Home(ClustersOf(sim, threshold, pages), i, c)
    ensures exists g: nat :: ItemHome(sim, threshold, pages, i, c, g)
  {
    ClusterIsAtItems(sim, threshold, pages, c);
    LiveBelowIs(pages, |pages|);
    var items, cs := LivePages(pages), ClustersOf(sim, threshold, pages);
    var x :| 0 <= x < |cs[c]| && cs[c][x] == i;
    var g := Grouped(TitleScore(sim, pages, items), threshold, |items|)[c][x];
    assert items[g] in items;
    assert ItemHome(sim, threshold, pages, i, c, g);
  }

  lemma ClustersAreLive(sim: Similarity, threshold: real, pages: seq<Page>)
    ensures LiveClusters(pages, ClustersOf(sim, threshold, pages))
  {
    var items := LivePages(pages);
    var score := TitleScore(sim, pages, items);
    LiveBelowIs(pages, |pages|);
    GroupedIsGood(score, threshold, |items|);
    var cs := ClustersOf(sim, threshold, pages);
    forall i: nat, c: nat | Home(cs, i, c)
      ensures i < |pages| && pages[i].live
    {
      HomeOfItem(sim, threshold, pages, i, c);
    }
    forall i: nat, c: nat, d: nat | Home(cs, i, c) && Home(cs, i, d)
      ensures c == d
    {
      HomeOfItem(sim, threshold, pages, i, c);
      HomeOfItem(sim, threshold, pages, i, d);
      var g: nat :| ItemHome(sim, threshold, pages, i, c, g);
      var h: nat :| ItemHome(sim, threshold, pages, i, d, h);
      assert g == h;
    }
    forall c | 0 <= c < |cs|
      ensures cs[c] != [] && Within(|pages|, cs[c]) && Ascending(cs[c])
    {
      ClusterIsAtItems(sim, threshold, pages, c);
      forall x | 0 <= x < |cs[c]|
        ensures cs[c][x] < |pages|
      {
        assert Home(cs, cs[c][x], c);
      }
    }
  }

  /** Every live page is in a cluster. */
  lemma LiveIsHoused(sim: Similarity, threshold: real, pages: seq<Page>, i: nat)
    requires i < |pages| && pages[i].live
    ensures Housed(ClustersOf(sim, threshold, pages), i)
  {
    var items := LivePages(pages);
    var score := TitleScore(sim, pages, items);
    LiveBelowIs(pages, |pages|);
    GroupedIsGood(score, threshold, |items|);
    var groups := Grouped(score, threshold, |items|);
    assert i in items;
    var g :| 0 <= g < |items| && items[g] == i;
    assert Housed(groups, g);
    var c: nat :| Home(groups, g, c);
    var x :| 0 <= x < |groups[c]| && groups[c][x] == g;
    ClusterIsAtItems(sim, threshold, pages, c);
    assert ClustersOf(sim, threshold, pages)[c][x] == i;
    assert Home(ClustersOf(sim, threshold, pages), i, c);
  }

  function Pass(sim: Similarity, threshold: real, pages: seq<Page>): (r: seq<Page>)
    ensures |r| == |pages|
  {
    ClustersAreLive(sim, threshold, pages);
    FoldAll(pages, ClustersOf(sim, threshold, pages))
  }

  // ---- The program. ----

  lemma {:induction false} LiveBelowAgrees(p: seq<Page>, q: seq<Page>, k: nat)
    requires k <= |p| && k <= |q| && forall i :: 0 <= i < k ==> p[i].live == q[i].live
    ensures LiveBelow(p, k) == LiveBelow(q, k)
  {
    if k > 0 {
      LiveBelowAgrees(p, q, k - 1);
    }
  }

  lemma {:induction false} WithdrawOne(pages: seq<Page>, i: nat, k: nat)
    requires i < |pages| && pages[i].live && k <= |pages|
    ensures var after := pages[i := pages[i].(live := false)];
            |LiveBelow(pages, k)| == |LiveBelow(after, k)| + (if i < k then 1 else 0)
  {
    if k > 0 {
      WithdrawOne(pages, i, k - 1);
    }
  }

  /** The knowledge pages of one project, as the store holds them. */
  class Shelf {
    var pages: seq<Page>

    constructor (pages: seq<Page>)
      ensures this.pages == pages
    {
      this.pages := pages;
    }

    /** Withdraw each of these pages with a tombstone. */
    method Withdraw(doomed: seq<nat>) returns (folded: nat)
      requires Within(|pages|, doomed) && Ascending(doomed)
      requires forall k :: 0 <= k < |doomed| ==> pages[doomed[k]].live
      modifies this
      ensures |pages| == |old(pages)|
      ensures forall i :: 0 <= i < |pages| ==>
                pages[i] == if i in doomed then old(pages[i]).(live := false) else old(pages[i])
      ensures LiveCount(pages) + folded == old(LiveCount(pages)) && folded == |doomed|
    {
      folded := 0;
      ghost var was := pages;
      for k := 0 to |doomed|
        invariant |pages| == |was|
        invariant forall i :: 0 <= i < |pages| ==>
                    pages[i] == if i in doomed[..k] then was[i].(live := false) else was[i]
        invariant LiveCount(pages) + folded == LiveCount(was) && folded == k
      {
        assert doomed[k] !in doomed[..k];
        WithdrawOne(pages, doomed[k], |pages|);
        pages := pages[doomed[k] := pages[doomed[k]].(live := false)];
        folded := folded + 1;
        assert doomed[..k + 1] == doomed[..k] + [doomed[k]];
      }
      assert doomed[..|doomed|] == doomed;
    }

    /** The pages of a cluster the fold withdraws, oldest first. */
    method RedundantOf(ids: seq<nat>, survivor: nat) returns (doomed: seq<nat>)
      requires ids != [] && Within(|pages|, ids) && Ascending(ids) && survivor == Survivor(pages, ids)
      ensures Within(|pages|, doomed) && Ascending(doomed)
      ensures forall i: nat :: i in doomed <==> Redundant(pages, ids, i)
    {
      doomed := [];
      for k := 0 to |ids|
        invariant Within(|pages|, doomed) && Ascending(doomed)
        invariant forall x :: 0 <= x < |doomed| && k < |ids| ==> doomed[x] < ids[k]
        invariant forall i: nat :: i in doomed <==> i in ids[..k] && i != survivor && !pages[i].corrected
      {
        assert ids[..k + 1] == ids[..k] + [ids[k]];
        if ids[k] != survivor && !pages[ids[k]].corrected {
          doomed := doomed + [ids[k]];
        }
      }
      assert ids[..|ids|] == ids;
    }

    /** Fold one cluster of live pages. */
    method FoldOne(ids: seq<nat>) returns (folded: nat)
      requires ids != [] && Within(|pages|, ids) && Ascending(ids)
      requires forall k :: 0 <= k < |ids| ==> pages[ids[k]].live
      modifies this
      ensures pages == FoldCluster(old(pages), ids)
      ensures LiveCount(pages) + folded == old(LiveCount(pages))
      ensures folded == 0 ==> pages == old(pages)
    {
      folded := 0;
      if |ids| < 2 {
        return;
      }
      var restored := false;
      for k := 0 to |ids|
        invariant restored <==> exists x :: 0 <= x < k && pages[ids[x]].restored
      {
        restored := restored || pages[ids[k]].restored;
      }
      if restored {
        return;
      }
      var survivor := Survivor(pages, ids);
      var doomed := RedundantOf(ids, survivor);
      if doomed == [] {
        return;
      }
      ghost var was := pages;
      assert doomed[0] in doomed;
      assert !Settled(was, ids);
      if !pages[survivor].corrected {
        pages := pages[survivor := pages[survivor].(title := pages[ids[|ids| - 1]].title)];
      }
      LiveBelowAgrees(was, pages, |pages|);
      forall k | 0 <= k < |doomed|
        ensures pages[doomed[k]].live
      {
        assert doomed[k] in doomed;
        var x :| 0 <= x < |ids| && ids[x] == doomed[k];
      }
      folded := Withdraw(doomed);
    }

    /** One fold of a project.  `encodes` is false without the embedding model. */
    method FoldDuplicates(sim: Similarity, threshold: real, encodes: bool) returns (folded: nat)
      modifies this
      ensures pages == if encodes then Pass(sim, threshold, old(pages)) else old(pages)
      ensures folded == old(LiveCount(pages)) - LiveCount(pages)
      ensures folded == 0 ==> pages == old(pages)
    {
      folded := 0;
      if |LivePages(pages)| < 2 {
        FewAreSettled(sim, threshold, pages);
        return;
      }
      if !encodes {
        return;
      }
      var items := LivePages(pages);
      var groups := GroupSameFact(TitleScore(sim, pages, items), threshold, |items|);
      var clusters := seq(|groups|, c requires 0 <= c < |groups| => AtItems(items, groups[c]));
      ClustersAreLive(sim, threshold, pages);
      assert clusters == ClustersOf(sim, threshold, pages);
      for c := 0 to |clusters|
        invariant |pages| == |old(pages)|
        invariant LiveClusters(pages, clusters[c..])
        invariant FoldAll(pages, clusters[c..]) == FoldAll(old(pages), clusters)
        invariant LiveCount(pages) + folded == old(LiveCount(pages))
        invariant folded == 0 ==> pages == old(pages)
      {
        var rest := clusters[c..];
        FirstOfLive(pages, rest);
        FoldingKeepsRestLive(pages, rest);
        var more := FoldOne(clusters[c]);
        assert rest[1..] == clusters[c + 1..];
        folded := folded + more;
      }
    }
  }

  lemma FirstOfLive(pages: seq<Page>, clusters: seq<seq<nat>>)
    requires LiveClusters(pages, clusters) && clusters != []
    ensures forall k :: 0 <= k < |clusters[0]| ==> pages[clusters[0][k]].live
  {
    forall k | 0 <= k < |clusters[0]|
      ensures pages[clusters[0][k]].live
    {
      assert Home(clusters, clusters[0][k], 0);
    }
  }

  /** Folding one cluster leaves the pages of the others alone. */
  lemma FoldingKeepsRestLive(pages: seq<Page>, clusters: seq<seq<nat>>)
    requires LiveClusters(pages, clusters) && clusters != []
    ensures LiveClusters(FoldCluster(pages, clusters[0]), clusters[1..])
  {
    var rest := clusters[1..];
    assert forall c :: 0 <= c < |rest| ==> rest[c] == clusters[c + 1];
    forall i: nat, c: nat | Home(rest, i, c)
      ensures Home(clusters, i, c + 1) && i !in clusters[0]
    {
      assert Home(clusters, i, c + 1);
      assert !Home(clusters, i, 0);
    }
  }

  lemma FewAreSettled(sim: Similarity, threshold: real, pages: seq<Page>)
    requires LiveCount(pages) < 2
    ensures Pass(sim, threshold, pages) == pages
  {
    var items := LivePages(pages);
    var score := TitleScore(sim, pages, items);
    AllAloneIffNoPair(score, threshold, |items|);
    AllAloneIsSettled(sim, threshold, pages);
  }

  lemma AllAloneIsSettled(sim: Similarity, threshold: real, pages: seq<Page>)
    requires AllAlone(Grouped(TitleScore(sim, pages, LivePages(pages)), threshold, LiveCount(pages)))
    ensures Pass(sim, threshold, pages) == pages
  {
    ClustersAreLive(sim, threshold, pages);
    SettledStays(pages, ClustersOf(sim, threshold, pages));
  }

  lemma {:induction false} SettledStays(pages: seq<Page>, clusters: seq<seq<nat>>)
    requires InRange(|pages|, clusters)
    requires forall c :: 0 <= c < |clusters| ==> Settled(pages, clusters[c])
    ensures FoldAll(pages, clusters) == pages
    decreases |clusters|
  {
    if clusters != [] {
      SettledStays(pages, clusters[1..]);
    }
  }
}
