/** What one synthesis round writes, whatever the model answers. */
module Synthesis {
  import opened Basics

  type Id = string

  const MIN_SOURCES := 2
  const MAX_PER_ROUND := 5

  datatype Kind = Rule | Recurring(name: string)

  datatype Class = Durable | Status | Passing      // Passing: history, or what the code already says

  /** One entry of the answer.  `machine` holds when it asks for the machine and
      the filter lets it; the texts are as scrubbed. */
  datatype Entry = Entry(
    kind: Option<Kind>, fate: Class, title: string, body: string, sources: seq<Id>, machine: bool)

  datatype Effect =
    | Knowledge(kind: Kind, title: string, body: string, links: seq<Id>, onMachine: bool)
    | Superseded(id: Id, title: string, body: string, onMachine: bool)
    | Labelled(id: Id, title: string)
    | Withdrawn(id: Id)
    | Cleared(id: Id)

  /** What a round goes by: the events it showed, which page carries a claim
      already, and the ids a recheck verdict corrected. */
  datatype Context = Context(
    summaries: seq<Id>, clusters: seq<seq<Id>>,
    known: string -> Option<Id>, machineKnown: string -> Option<Id>,
    revised: set<Id>)

  datatype Tally = Tally(log: seq<Effect>, labelled: set<Id>, machineRevised: set<Id>, written: nat)

  // ---- One entry. ----

  function Flat(clusters: seq<seq<Id>>): seq<Id> {
    if clusters == [] then [] else clusters[0] + Flat(clusters[1..])
  }

  /** The events the entry cites, out of those it may cite. */
  function Sources(c: Context, e: Entry): seq<Id> {
    Selected(if e.kind == Some(Rule) then Flat(c.clusters) else c.summaries, e.sources)
  }

  predicate Covers(cluster: seq<Id>, cited: seq<Id>) {
    forall k :: 0 <= k < |cited| ==> cited[k] in cluster
  }

  predicate SomeCovers(clusters: seq<seq<Id>>, cited: seq<Id>) {
    exists k :: 0 <= k < |clusters| && Covers(clusters[k], cited)
  }

  predicate OneClusterBacks(cited: seq<Id>, clusters: seq<seq<Id>>) {
    |cited| >= MIN_SOURCES && SomeCovers(clusters, cited)
  }

  predicate Readable(e: Entry) {
    e.kind.Some? && !e.fate.Passing? && e.title != "" && e.body != ""
  }

  predicate Backed(c: Context, e: Entry) {
    if e.kind == Some(Rule) then OneClusterBacks(Sources(c, e), c.clusters)
    else |Sources(c, e)| >= MIN_SOURCES
  }

  predicate ToMachine(e: Entry) {
    e.machine && !e.fate.Status?
  }

  /** An entry whose claim a project page carries lands there. */
  function TakeKnown(c: Context, t: Tally, e: Entry, id: Id): Tally {
    if id in c.revised then t
    else if id in t.labelled then t.(log := t.log + [Superseded(id, e.title, e.body, false)])
    else t.(log := t.log + [Superseded(id, e.title, e.body, false), Labelled(id, e.title)],
            labelled := t.labelled + {id})
  }

  function TakeMachine(c: Context, t: Tally, e: Entry): Tally
    requires e.kind.Some?
  {
    var id := c.machineKnown(e.title);
    if id.None? then
      t.(log := t.log + [Knowledge(e.kind.value, e.title, e.body, [], true)], written := t.written + 1)
    else if id.value in t.machineRevised then t
    else t.(log := t.log + [Superseded(id.value, e.title, e.body, true)],
            machineRevised := t.machineRevised + {id.value})
  }

  function Take(c: Context, t: Tally, e: Entry): Tally {
    if t.written >= MAX_PER_ROUND || !Readable(e) then t
    else if c.known(e.title).Some? then TakeKnown(c, t, e, c.known(e.title).value)
    else if !Backed(c, e) then t
    else if ToMachine(e) then TakeMachine(c, t, e)
    else t.(log := t.log + [Knowledge(e.kind.value, e.title, e.body, Sources(c, e), false)],
            written := t.written + 1)
  }

  function After(c: Context, entries: seq<Entry>): Tally {
    if entries == [] then Tally([], {}, {}, 0)
    else Take(c, After(c, entries[..|entries| - 1]), entries[|entries| - 1])
  }

  // ---- The program. ----

  class Round {
    var log: seq<Effect>
    var labelled: set<Id>
    var machineRevised: set<Id>
    var written: nat
    var machineWritten: nat

    constructor ()
      ensures View() == Tally([], {}, {}, 0)
    {
      log, labelled, machineRevised, written, machineWritten := [], {}, {}, 0, 0;
    }

    function View(): Tally
      reads this
    {
      Tally(log, labelled, machineRevised, written + machineWritten)
    }

    method AddEntries(c: Context, entries: seq<Entry>)
      requires View() == Tally([], {}, {}, 0)
      modifies this
      ensures View() == After(c, entries)
    {
      var k := 0;
      while k < |entries|
        invariant 0 <= k <= |entries|
        invariant View() == After(c, entries[..k])
      {
        if written + machineWritten >= MAX_PER_ROUND {
          FullStays(c, entries, k);
          return;
        }
        assert entries[..k + 1][..k] == entries[..k];
        AddEntry(c, entries[k]);
        k := k + 1;
      }
      assert entries[..k] == entries;
    }

    /** The body of the loop. */
    method AddEntry(c: Context, e: Entry)
      requires written + machineWritten < MAX_PER_ROUND
      modifies this
      ensures View() == Take(c, old(View()), e)
    {
      if e.kind.None? || e.fate.Passing? {
        return;
      }
      if e.title == "" || e.body == "" {
        return;
      }
      var sources := Resolve(c, e);
      var found := c.known(e.title);
      if found.Some? {
        if found.value in c.revised {
          return;
        }
        log := log + [Superseded(found.value, e.title, e.body, false)];
        if found.value !in labelled {
          labelled := labelled + {found.value};
          log := log + [Labelled(found.value, e.title)];
        }
        return;
      }
      if e.kind.value.Rule? {
        if !OneClusterBacks(sources, c.clusters) {
          return;
        }
      } else if |sources| < MIN_SOURCES {
        return;
      }
      if e.machine && !e.fate.Status? {
        var there := c.machineKnown(e.title);
        if there.Some? {
          if there.value !in machineRevised {
            machineRevised := machineRevised + {there.value};
            log := log + [Superseded(there.value, e.title, e.body, true)];
          }
          return;
        }
        log := log + [Knowledge(e.kind.value, e.title, e.body, [], true)];
        machineWritten := machineWritten + 1;
        return;
      }
      log := log + [Knowledge(e.kind.value, e.title, e.body, sources, false)];
      written := written + 1;
    }

    /** The loop over cited ids. */
    method Resolve(c: Context, e: Entry) returns (sources: seq<Id>)
      ensures sources == Sources(c, e)
    {
      var pool := if e.kind == Some(Rule) then Flat(c.clusters) else c.summaries;
      sources := [];
      for k := 0 to |e.sources|
        invariant sources == Selected(pool, e.sources[..k])
      {
        SelectedNext(pool, e.sources, k);
        if e.sources[k] in sources {
          continue;
        }
        if e.sources[k] in pool {
          sources := sources + [e.sources[k]];
        }
      }
      assert e.sources[..|e.sources|] == e.sources;
    }
  }

  lemma {:induction false} FullStays(c: Context, entries: seq<Entry>, k: nat)
    requires k <= |entries| && After(c, entries[..k]).written >= MAX_PER_ROUND
    ensures After(c, entries) == After(c, entries[..k])
    decreases |entries|
  {
    if k == |entries| {
      assert entries[..k] == entries;
    } else {
      var front := entries[..|entries| - 1];
      assert front[..k] == entries[..k];
      FullStays(c, front, k);
    }
  }

  // ---- Provenance. ----

  function Additions(log: seq<Effect>): nat {
    if log == [] then 0 else Additions(log[..|log| - 1]) + (if log[|log| - 1].Knowledge? then 1 else 0)
  }

  lemma AdditionsPush(log: seq<Effect>, x: Effect)
    ensures Additions(log + [x]) == Additions(log) + (if x.Knowledge? then 1 else 0)
  {
    assert (log + [x])[..|log|] == log;
  }

  lemma AdditionsStep(c: Context, t: Tally, e: Entry)
    requires Additions(t.log) == t.written <= MAX_PER_ROUND
    ensures Additions(Take(c, t, e).log) == Take(c, t, e).written <= MAX_PER_ROUND
  {
    if t.written < MAX_PER_ROUND && Readable(e) {
      if c.known(e.title).Some? {
        AdditionsKnown(c, t, e, c.known(e.title).value);
      } else {
        AdditionsMachine(c, t, e);
        AdditionsPush(t.log, Knowledge(e.kind.value, e.title, e.body, Sources(c, e), false));
      }
    }
  }

  lemma AdditionsKnown(c: Context, t: Tally, e: Entry, id: Id)
    ensures Additions(TakeKnown(c, t, e, id).log) == Additions(t.log)
  {
    var first, second := Superseded(id, e.title, e.body, false), Labelled(id, e.title);
    AdditionsPush(t.log, first);
    AdditionsPush(t.log + [first], second);
    assert t.log + [first] + [second] == t.log + [first, second];
  }

  lemma AdditionsMachine(c: Context, t: Tally, e: Entry)
    requires e.kind.Some?
    ensures Additions(TakeMachine(c, t, e).log) - Additions(t.log) == TakeMachine(c, t, e).written - t.written
    ensures TakeMachine(c, t, e).written <= t.written + 1
  {
    var id := c.machineKnown(e.title);
    if id.Some? {
      AdditionsPush(t.log, Superseded(id.value, e.title, e.body, true));
    } else {
      AdditionsPush(t.log, Knowledge(e.kind.value, e.title, e.body, [], true));
    }
  }

  /** A round adds at most five Knowledge events, whatever the answer. */
  lemma {:induction false} AtMostFive(c: Context, entries: seq<Entry>)
    ensures Additions(After(c, entries).log) == After(c, entries).written <= 5
  {
    if entries != [] {
      AtMostFive(c, entries[..|entries| - 1]);
      AdditionsStep(c, After(c, entries[..|entries| - 1]), entries[|entries| - 1]);
    }
  }

  /** The round showed this event to entries of its kind: as a correction in one of
      the clusters to a rule, as a summary to any other. */
  predicate Showed(c: Context, e: Entry, id: Id) {
    if e.kind == Some(Rule) then exists k :: 0 <= k < |c.clusters| && id in c.clusters[k] else id in c.summaries
  }

  /** Two different events the entry names were shown to it. */
  predicate CitesTwo(c: Context, e: Entry) {
    exists i, j :: 0 <= i < j < |e.sources| && e.sources[i] != e.sources[j]
                   && Showed(c, e, e.sources[i]) && Showed(c, e, e.sources[j])
  }

  /** All events the entry names and was shown are in this cluster. */
  predicate CitesWithin(c: Context, e: Entry, cluster: seq<Id>) {
    forall i :: 0 <= i < |e.sources| && Showed(c, e, e.sources[i]) ==> e.sources[i] in cluster
  }

  /** What a new claim needs: two events to back it, for a rule all it cites in
      one correction cluster. */
  predicate WellBacked(c: Context, e: Entry) {
    CitesTwo(c, e)
    && (e.kind == Some(Rule) ==> exists k :: 0 <= k < |c.clusters| && CitesWithin(c, e, c.clusters[k]))
  }

  /** The links are the events the entry names and was shown, each once, in the
      order it first names them. */
  ghost predicate LinksAll(c: Context, e: Entry, links: seq<Id>) {
    && Distinct(links)
    && (forall id: Id :: id in links <==> id in e.sources && Showed(c, e, id))
    && (forall i, j :: 0 <= i < j < |links| ==>
          exists n :: 0 <= n < |e.sources| && e.sources[n] == links[i] && links[j] !in e.sources[..n])
  }

  lemma {:induction false} FlatHas(clusters: seq<seq<Id>>, id: Id)
    ensures id in Flat(clusters) <==> exists k :: 0 <= k < |clusters| && id in clusters[k]
  {
    if clusters != [] {
      FlatHas(clusters[1..], id);
      if k :| 0 <= k < |clusters[1..]| && id in clusters[1..][k] {
        assert id in clusters[k + 1];
      }
      if k :| 0 <= k < |clusters| && id in clusters[k] {
        assert k > 0 ==> id in clusters[1..][k - 1];
      }
    }
  }

  lemma SourcesAre(c: Context, e: Entry, id: Id)
    ensures id in Sources(c, e) <==> id in e.sources && Showed(c, e, id)
  {
    FlatHas(c.clusters, id);
  }

  lemma {:induction false} SelectedInOrder(known: seq<Id>, named: seq<Id>, i: nat, j: nat)
    requires i < j < |Selected(known, named)|
    ensures exists n :: 0 <= n < |named| && named[n] == Selected(known, named)[i]
                        && Selected(known, named)[j] !in named[..n]
    decreases |named|
  {
    var front := named[..|named| - 1];
    var all, before := Selected(known, named), Selected(known, front);
    if j < |before| {
      SelectedInOrder(known, front, i, j);
      var n :| 0 <= n < |front| && front[n] == before[i] && before[j] !in front[..n];
      assert front[..n] == named[..n];
    } else {
      assert before[i] in before && all[j] !in front;
      var n :| 0 <= n < |front| && front[n] == before[i];
      assert front[..n] == named[..n] && forall x :: x in named[..n] ==> x in front;
    }
  }

  lemma SourcesLinkAll(c: Context, e: Entry)
    ensures LinksAll(c, e, Sources(c, e))
  {
    forall id: Id
      ensures id in Sources(c, e) <==> id in e.sources && Showed(c, e, id)
    {
      SourcesAre(c, e, id);
    }
    forall i, j | 0 <= i < j < |Sources(c, e)|
      ensures exists n :: 0 <= n < |e.sources| && e.sources[n] == Sources(c, e)[i]
                          && Sources(c, e)[j] !in e.sources[..n]
    {
      SelectedInOrder(if e.kind == Some(Rule) then Flat(c.clusters) else c.summaries, e.sources, i, j);
    }
  }

  /** The gates count and place exactly what the entry names and was shown. */
  lemma BackedIff(c: Context, e: Entry)
    ensures Backed(c, e) <==> WellBacked(c, e)
  {
    EnoughIff(c, e);
    OneClusterIff(c, e);
  }

  lemma EnoughIff(c: Context, e: Entry)
    ensures |Sources(c, e)| >= MIN_SOURCES <==> CitesTwo(c, e)
  {
    if |Sources(c, e)| >= 2 {
      TwoOfMany(c, e);
    }
    if CitesTwo(c, e) {
      ManyOfTwo(c, e);
    }
  }

  lemma OneClusterIff(c: Context, e: Entry)
    ensures SomeCovers(c.clusters, Sources(c, e)) <==>
            exists k :: 0 <= k < |c.clusters| && CitesWithin(c, e, c.clusters[k])
  {
    forall k | 0 <= k < |c.clusters|
      ensures Covers(c.clusters[k], Sources(c, e)) <==> CitesWithin(c, e, c.clusters[k])
    {
      CoversIff(c, e, c.clusters[k]);
    }
  }

  lemma CoversIff(c: Context, e: Entry, cluster: seq<Id>)
    ensures Covers(cluster, Sources(c, e)) <==> CitesWithin(c, e, cluster)
  {
    var cited := Sources(c, e);
    forall i | 0 <= i < |e.sources| && Showed(c, e, e.sources[i])
      ensures e.sources[i] in cited
    {
      SourcesAre(c, e, e.sources[i]);
    }
    forall k | 0 <= k < |cited|
      ensures cited[k] in e.sources && Showed(c, e, cited[k])
    {
      SourcesAre(c, e, cited[k]);
      assert cited[k] in cited;
    }
  }

  lemma ManyOfTwo(c: Context, e: Entry)
    requires CitesTwo(c, e)
    ensures |Sources(c, e)| >= 2
  {
    var i, j :| 0 <= i < j < |e.sources| && e.sources[i] != e.sources[j]
                && Showed(c, e, e.sources[i]) && Showed(c, e, e.sources[j]);
    SourcesAre(c, e, e.sources[i]);
    SourcesAre(c, e, e.sources[j]);
    var x :| 0 <= x < |Sources(c, e)| && Sources(c, e)[x] == e.sources[i];
    var y :| 0 <= y < |Sources(c, e)| && Sources(c, e)[y] == e.sources[j];
    assert x != y;
  }

  lemma TwoOfMany(c: Context, e: Entry)
    requires |Sources(c, e)| >= 2
    ensures CitesTwo(c, e)
  {
    var a, b := Sources(c, e)[0], Sources(c, e)[1];
    SourcesAre(c, e, a);
    SourcesAre(c, e, b);
    assert a in Sources(c, e) && b in Sources(c, e) && a != b;
    var i :| 0 <= i < |e.sources| && e.sources[i] == a;
    var j :| 0 <= j < |e.sources| && e.sources[j] == b;
    if i < j {
      assert CitesTwo(c, e);
    } else {
      assert j < i;
    }
  }

  /** The entry brings this event: readable, new to the project, backed by two
      or more distinct events shown to it, for a rule all in one correction
      cluster.  A project page links exactly those; on the machine none travels
      along. */
  ghost predicate Brings(c: Context, e: Entry, x: Effect)
    requires x.Knowledge?
  {
    && e.kind == Some(x.kind) && e.title == x.title != "" && e.body == x.body != ""
    && !e.fate.Passing? && c.known(e.title).None? && WellBacked(c, e)
    && x.onMachine == (e.machine && !e.fate.Status?)
    && (if x.onMachine then x.links == [] else LinksAll(c, e, x.links))
  }

  /** The log of a round only grows. */
  lemma {:induction false} LogGrows(c: Context, entries: seq<Entry>, n: nat)
    requires n <= |entries|
    ensures After(c, entries[..n]).log <= After(c, entries).log
    decreases |entries|
  {
    if n == |entries| {
      assert entries[..n] == entries;
    } else {
      var front := entries[..|entries| - 1];
      assert front[..n] == entries[..n];
      LogGrows(c, front, n);
    }
  }

  /** The entry holds a new claim a round may add: readable, backed, and carried
      by no page it would go to. */
  predicate Addable(c: Context, e: Entry) {
    && e.kind.Some? && !e.fate.Passing? && e.title != "" && e.body != ""
    && c.known(e.title).None? && WellBacked(c, e)
    && (e.machine && !e.fate.Status? ==> c.machineKnown(e.title).None?)
  }

  function CountAddable(c: Context, entries: seq<Entry>): nat {
    if entries == [] then 0
    else CountAddable(c, entries[..|entries| - 1]) + (if Addable(c, entries[|entries| - 1]) then 1 else 0)
  }

  /** A round adds the first five addable entries of the answer, or all. */
  lemma {:induction false} WrittenIs(c: Context, entries: seq<Entry>)
    ensures After(c, entries).written == Min(5, CountAddable(c, entries))
  {
    if entries != [] {
      WrittenIs(c, entries[..|entries| - 1]);
      BackedIff(c, entries[|entries| - 1]);
    }
  }

  /** And the gate holds nothing else back: an addable entry behind fewer than
      five others is added, with its own wording. */
  lemma WorthyIsAdded(c: Context, entries: seq<Entry>, i: nat)
    requires i < |entries| && CountAddable(c, entries[..i]) < 5 && Addable(c, entries[i])
    ensures exists k :: 0 <= k < |After(c, entries).log| && After(c, entries).log[k].Knowledge?
                        && Brings(c, entries[i], After(c, entries).log[k])
  {
    var before, next := After(c, entries[..i]), After(c, entries[..i + 1]);
    assert entries[..i + 1][..i] == entries[..i];
    WrittenIs(c, entries[..i]);
    LogGrows(c, entries, i + 1);
    BackedIff(c, entries[i]);
    SourcesLinkAll(c, entries[i]);
    var k := |before.log|;
    assert next.log[k].Knowledge? && Brings(c, entries[i], next.log[k]);
    assert After(c, entries).log[k] == next.log[k];
  }

  /** The entry brings this revision: readable, its claim on that page already;
      onto the machine only a backed claim that no project page carries. */
  ghost predicate Revises(c: Context, e: Entry, x: Effect)
    requires x.Superseded?
  {
    && e.kind.Some? && !e.fate.Passing? && e.title == x.title != "" && e.body == x.body != ""
    && (if x.onMachine then
          c.known(e.title).None? && WellBacked(c, e) && e.machine && !e.fate.Status?
          && c.machineKnown(e.title) == Some(x.id)
        else c.known(e.title) == Some(x.id) && x.id !in c.revised)
  }

  ghost predicate Explained(c: Context, entries: seq<Entry>, log: seq<Effect>, k: nat)
    requires k < |log|
  {
    || (log[k].Knowledge? && exists i :: 0 <= i < |entries| && Brings(c, entries[i], log[k]))
    || (log[k].Superseded? && exists i :: 0 <= i < |entries| && Revises(c, entries[i], log[k]))
    || (log[k].Labelled? && k > 0 && log[k - 1].Superseded? && log[k - 1].id == log[k].id
        && log[k - 1].title == log[k].title && !log[k - 1].onMachine)
  }

  /** Whatever the answer, everything a round writes is some entry's, in that
      entry's wording, and a label follows right after the revision it is for. */
  lemma {:induction false} EverythingIsExplained(c: Context, entries: seq<Entry>, k: nat)
    requires k < |After(c, entries).log|
    ensures Explained(c, entries, After(c, entries).log, k)
    decreases |entries|
  {
    var n := |entries| - 1;
    var before, log := After(c, entries[..n]).log, After(c, entries).log;
    LogGrows(c, entries, n);
    if k < |before| {
      EverythingIsExplained(c, entries[..n], k);
      assert forall j :: 0 <= j < n ==> entries[..n][j] == entries[j];
      ExplainedStays(c, entries, n, before, log, k);
    } else {
      NewIsExplained(c, entries, k);
    }
  }

  lemma NewIsExplained(c: Context, entries: seq<Entry>, k: nat)
    requires entries != [] && |After(c, entries[..|entries| - 1]).log| <= k < |After(c, entries).log|
    ensures Explained(c, entries, After(c, entries).log, k)
  {
    var e, x := entries[|entries| - 1], After(c, entries).log[k];
    BackedIff(c, e);
    SourcesLinkAll(c, e);
    if x.Knowledge? {
      assert Brings(c, e, x);
    } else if x.Superseded? {
      assert Revises(c, e, x);
    }
  }

  /** So every Knowledge event of a round is backed. */
  lemma EveryAdditionIsBacked(c: Context, entries: seq<Entry>, k: nat)
    requires k < |After(c, entries).log| && After(c, entries).log[k].Knowledge?
    ensures exists i :: 0 <= i < |entries| && Brings(c, entries[i], After(c, entries).log[k])
  {
    EverythingIsExplained(c, entries, k);
  }

  lemma ExplainedStays(c: Context, entries: seq<Entry>, n: nat, before: seq<Effect>, log: seq<Effect>, k: nat)
    requires n <= |entries| && k < |before| && before <= log && Explained(c, entries[..n], before, k)
    ensures Explained(c, entries, log, k)
  {
    if before[k].Knowledge? {
      var i :| 0 <= i < n && Brings(c, entries[..n][i], before[k]);
      assert Brings(c, entries[i], log[k]);
    } else if before[k].Superseded? {
      var i :| 0 <= i < n && Revises(c, entries[..n][i], before[k]);
      assert Revises(c, entries[i], log[k]);
    }
  }

  // ---- Labels and revisions. ----

  function LabelsOf(log: seq<Effect>, id: Id): nat {
    if log == [] then 0
    else LabelsOf(log[..|log| - 1], id) + (if log[|log| - 1].Labelled? && log[|log| - 1].id == id then 1 else 0)
  }

  function RevisionsOf(log: seq<Effect>, id: Id, onMachine: bool): nat {
    if log == [] then 0
    else
      var x := log[|log| - 1];
      RevisionsOf(log[..|log| - 1], id, onMachine)
      + (if x.Superseded? && x.id == id && x.onMachine == onMachine then 1 else 0)
  }

  lemma CountsPush(log: seq<Effect>, x: Effect, id: Id, onMachine: bool)
    ensures LabelsOf(log + [x], id) == LabelsOf(log, id) + (if x.Labelled? && x.id == id then 1 else 0)
    ensures RevisionsOf(log + [x], id, onMachine) == RevisionsOf(log, id, onMachine)
              + (if x.Superseded? && x.id == id && x.onMachine == onMachine then 1 else 0)
  {
    assert (log + [x])[..|log|] == log;
  }

  /** The entry is reached - fewer than five before it were added - and readable,
      and lands on this project page. */
  predicate Lands(c: Context, before: nat, e: Entry, id: Id) {
    before < MAX_PER_ROUND && Readable(e) && c.known(e.title) == Some(id) && id !in c.revised
  }

  /** What a round has done to one page so far; the machine's revisions beyond
      the one a page is marked for. */
  datatype Fate = Fate(revisions: nat, labels: nat, labelled: bool, machine: int)

  function FateOf(t: Tally, id: Id): Fate {
    Fate(RevisionsOf(t.log, id, false), LabelsOf(t.log, id), id in t.labelled,
         RevisionsOf(t.log, id, true) - (if id in t.machineRevised then 1 else 0))
  }

  function Landed(f: Fate): Fate {
    Fate(f.revisions + 1, f.labels + (if f.labelled then 0 else 1), true, f.machine)
  }

  lemma CountsStep(c: Context, t: Tally, e: Entry, id: Id)
    ensures FateOf(Take(c, t, e), id) == if Lands(c, t.written, e, id) then Landed(FateOf(t, id)) else FateOf(t, id)
  {
    if t.written < MAX_PER_ROUND && Readable(e) {
      if c.known(e.title).Some? {
        KnownCounts(c, t, e, c.known(e.title).value, id);
      } else {
        MachineCounts(c, t, e, id);
        KnowledgeCounts(t.log, Knowledge(e.kind.value, e.title, e.body, Sources(c, e), false), id);
      }
    }
  }

  lemma KnownCounts(c: Context, t: Tally, e: Entry, page: Id, id: Id)
    ensures FateOf(TakeKnown(c, t, e, page), id) ==
            if page == id && id !in c.revised then Landed(FateOf(t, id)) else FateOf(t, id)
  {
    var first, second := Superseded(page, e.title, e.body, false), Labelled(page, e.title);
    if page !in c.revised {
      if page in t.labelled {
        RevisedCounts(t.log, first, id);
      } else {
        BothCount(t.log, first, second, id);
      }
    }
  }

  /** A revision with its label after it. */
  lemma BothCount(log: seq<Effect>, first: Effect, second: Effect, id: Id)
    requires first.Superseded? && !first.onMachine && second.Labelled? && first.id == second.id
    ensures var one := if first.id == id then 1 else 0;
            && LabelsOf(log + [first, second], id) == LabelsOf(log, id) + one
            && RevisionsOf(log + [first, second], id, false) == RevisionsOf(log, id, false) + one
            && RevisionsOf(log + [first, second], id, true) == RevisionsOf(log, id, true)
  {
    assert log + [first, second] == log + [first] + [second];
    RevisedCounts(log, first, id);
    LabelledCounts(log + [first], second, id);
  }

  lemma RevisedCounts(log: seq<Effect>, x: Effect, id: Id)
    requires x.Superseded? && !x.onMachine
    ensures LabelsOf(log + [x], id) == LabelsOf(log, id)
    ensures RevisionsOf(log + [x], id, false) == RevisionsOf(log, id, false) + (if x.id == id then 1 else 0)
    ensures RevisionsOf(log + [x], id, true) == RevisionsOf(log, id, true)
  {
    CountsPush(log, x, id, false);
    CountsPush(log, x, id, true);
  }

  lemma LabelledCounts(log: seq<Effect>, x: Effect, id: Id)
    requires x.Labelled?
    ensures LabelsOf(log + [x], id) == LabelsOf(log, id) + (if x.id == id then 1 else 0)
    ensures forall onMachine :: RevisionsOf(log + [x], id, onMachine) == RevisionsOf(log, id, onMachine)
  {
    CountsPush(log, x, id, false);
    CountsPush(log, x, id, true);
  }

  lemma MachineCounts(c: Context, t: Tally, e: Entry, id: Id)
    requires e.kind.Some?
    ensures FateOf(TakeMachine(c, t, e), id) == FateOf(t, id)
  {
    var there := c.machineKnown(e.title);
    if there.Some? {
      CountsPush(t.log, Superseded(there.value, e.title, e.body, true), id, false);
      CountsPush(t.log, Superseded(there.value, e.title, e.body, true), id, true);
    } else {
      KnowledgeCounts(t.log, Knowledge(e.kind.value, e.title, e.body, [], true), id);
    }
  }

  lemma KnowledgeCounts(log: seq<Effect>, x: Effect, id: Id)
    requires x.Knowledge?
    ensures LabelsOf(log + [x], id) == LabelsOf(log, id)
    ensures forall onMachine :: RevisionsOf(log + [x], id, onMachine) == RevisionsOf(log, id, onMachine)
  {
    CountsPush(log, x, id, true);
    CountsPush(log, x, id, false);
  }

  /** How many of the first entries land on this page. */
  function Landings(c: Context, entries: seq<Entry>, id: Id): nat {
    if entries == [] then 0
    else
      var n := |entries| - 1;
      Landings(c, entries[..n], id) + (if Lands(c, CountAddable(c, entries[..n]), entries[n], id) then 1 else 0)
  }

  /** Each page is revised once for every entry that lands on it and labelled
      once if any does; a machine page is revised at most once. */
  lemma {:induction false} RevisionsAndLabels(c: Context, entries: seq<Entry>, id: Id)
    ensures RevisionsOf(After(c, entries).log, id, false) == Landings(c, entries, id)
    ensures LabelsOf(After(c, entries).log, id) == Min(Landings(c, entries, id), 1)
    ensures id in After(c, entries).labelled <==> Landings(c, entries, id) > 0
    ensures RevisionsOf(After(c, entries).log, id, true) ==
            if id in After(c, entries).machineRevised then 1 else 0
  {
    if entries != [] {
      var n := |entries| - 1;
      RevisionsAndLabels(c, entries[..n], id);
      WrittenIs(c, entries[..n]);
      CountsStep(c, After(c, entries[..n]), entries[n], id);
    }
  }

  /** The entry is reached - fewer than five before it were added - and brings to the
      machine, backed, a claim that no project page carries and this machine page does. */
  predicate LandsOnMachine(c: Context, entries: seq<Entry>, id: Id, k: nat) {
    && k < |entries| && CountAddable(c, entries[..k]) < 5
    && entries[k].kind.Some? && !entries[k].fate.Passing? && entries[k].title != "" && entries[k].body != ""
    && c.known(entries[k].title).None? && WellBacked(c, entries[k])
    && entries[k].machine && !entries[k].fate.Status? && c.machineKnown(entries[k].title) == Some(id)
  }

  lemma MachineStep(c: Context, entries: seq<Entry>, id: Id)
    requires entries != []
    ensures var n := |entries| - 1;
            id in After(c, entries).machineRevised <==>
            id in After(c, entries[..n]).machineRevised || LandsOnMachine(c, entries, id, n)
  {
    WrittenIs(c, entries[..|entries| - 1]);
    BackedIff(c, entries[|entries| - 1]);
  }

  lemma {:induction false} MachineRevisedIff(c: Context, entries: seq<Entry>, id: Id)
    ensures id in After(c, entries).machineRevised <==>
            exists k: nat :: k < |entries| && LandsOnMachine(c, entries, id, k)
  {
    if entries != [] {
      var n := |entries| - 1;
      MachineRevisedIff(c, entries[..n], id);
      MachineStep(c, entries, id);
      forall k: nat | k < n
        ensures LandsOnMachine(c, entries, id, k) <==> LandsOnMachine(c, entries[..n], id, k)
      {
        assert entries[..n][..k] == entries[..k];
      }
    }
  }

  /** A page of the machine is revised once if any entry of a round lands on it, and
      else not. */
  lemma MachineRevisedOnce(c: Context, entries: seq<Entry>, id: Id)
    ensures RevisionsOf(After(c, entries).log, id, true) ==
            if exists k: nat :: k < |entries| && LandsOnMachine(c, entries, id, k) then 1 else 0
  {
    MachineRevisedIff(c, entries, id);
    RevisionsAndLabels(c, entries, id);
  }

  /** A page a verdict corrected is neither revised nor labelled again. */
  lemma RevisedIsLeftAlone(c: Context, entries: seq<Entry>, id: Id)
    requires id in c.revised
    ensures RevisionsOf(After(c, entries).log, id, false) == 0 && LabelsOf(After(c, entries).log, id) == 0
  {
    NoLandings(c, entries, id);
    RevisionsAndLabels(c, entries, id);
  }

  lemma {:induction false} NoLandings(c: Context, entries: seq<Entry>, id: Id)
    requires id in c.revised
    ensures Landings(c, entries, id) == 0
  {
    if entries != [] {
      NoLandings(c, entries[..|entries| - 1], id);
    }
  }

  ghost predicate LandsAt(c: Context, entries: seq<Entry>, id: Id, k: nat) {
    k < |entries| && Lands(c, CountAddable(c, entries[..k]), entries[k], id)
  }

  lemma {:induction false} LandingsAre(c: Context, entries: seq<Entry>, id: Id)
    ensures Landings(c, entries, id) > 0 <==> exists k: nat :: LandsAt(c, entries, id, k)
    ensures Landings(c, entries, id) > 1 <==>
            exists j: nat, k: nat :: j < k && LandsAt(c, entries, id, j) && LandsAt(c, entries, id, k)
  {
    if entries != [] {
      var n := |entries| - 1;
      var front := entries[..n];
      LandingsAre(c, front, id);
      LandsInFront(c, entries, id);
      assert Landings(c, entries, id) == Landings(c, front, id) + (if LandsAt(c, entries, id, n) then 1 else 0);
      forall j: nat, k: nat | j < k && LandsAt(c, entries, id, j) && LandsAt(c, entries, id, k)
        ensures Landings(c, entries, id) > 1
      {
        assert LandsAt(c, front, id, j);
        assert k < n ==> LandsAt(c, front, id, k);
      }
      if Landings(c, front, id) > 1 {
        var j: nat, k: nat :| j < k && LandsAt(c, front, id, j) && LandsAt(c, front, id, k);
        assert LandsAt(c, entries, id, j) && LandsAt(c, entries, id, k);
      } else if Landings(c, front, id) > 0 {
        var k: nat :| LandsAt(c, front, id, k);
        assert LandsAt(c, entries, id, k);
      }
    }
  }

  lemma LandsInFront(c: Context, entries: seq<Entry>, id: Id)
    requires entries != []
    ensures forall k: nat :: k < |entries| - 1 ==>
              (LandsAt(c, entries, id, k) <==> LandsAt(c, entries[..|entries| - 1], id, k))
  {
    forall k: nat | k < |entries| - 1
      ensures LandsAt(c, entries, id, k) <==> LandsAt(c, entries[..|entries| - 1], id, k)
    {
      assert entries[..|entries| - 1][..k] == entries[..k];
    }
  }

  /** The project branch does not hold a second revision back: a page is revised
      twice in one round exactly when two entries land on it. */
  lemma RevisedTwiceIff(c: Context, entries: seq<Entry>, id: Id)
    ensures RevisionsOf(After(c, entries).log, id, false) > 1 <==>
            exists j: nat, k: nat :: j < k && LandsAt(c, entries, id, j) && LandsAt(c, entries, id, k)
  {
    RevisionsAndLabels(c, entries, id);
    LandingsAre(c, entries, id);
  }

  /** An answer that does it. */
  lemma OnePageRevisedTwice(c: Context, e: Entry, f: Entry, id: Id)
    requires Readable(e) && Readable(f) && c.known(e.title) == c.known(f.title) == Some(id) && id !in c.revised
    ensures RevisionsOf(After(c, [e, f]).log, id, false) == 2 && LabelsOf(After(c, [e, f]).log, id) == 1
  {
    RevisionsAndLabels(c, [e, f], id);
    assert [e, f][..1] == [e] && [e][..0] == [];
    assert Landings(c, [e], id) == 1;
  }

  // ---- Verdicts on doubtful lessons. ----

  datatype Verdict = Keep | Retire | Correct(text: string) | Unknown

  datatype Item = Item(id: Id, verdict: Verdict)

  datatype Shown = Shown(id: Id, title: string)

  function TitleOf(shown: seq<Shown>, id: Id): (r: Option<string>)
    ensures r.Some? <==> exists k :: 0 <= k < |shown| && shown[k].id == id
  {
    if shown == [] then None
    else if shown[0].id == id then Some(shown[0].title)
    else TitleOf(shown[1..], id)
  }

  function Outcome(id: Id, title: string, verdict: Verdict): seq<Effect> {
    match verdict
    case Keep => [Cleared(id)]
    case Retire => [Withdrawn(id)]
    case Correct(text) => if text == "" then [] else [Superseded(id, title, text, false), Cleared(id)]
    case Unknown => []
  }

  /** The first verdict on a lesson that was shown. */
  predicate First(items: seq<Item>, shown: seq<Shown>, k: nat)
    requires k < |items|
  {
    TitleOf(shown, items[k].id).Some? && forall j :: 0 <= j < k ==> items[j].id != items[k].id
  }

  predicate Obeyed(items: seq<Item>, shown: seq<Shown>, human: set<Id>, k: nat)
    requires k < |items|
  {
    First(items, shown, k) && items[k].id !in human
  }

  function Verdicts(items: seq<Item>, shown: seq<Shown>, human: set<Id>, n: nat): seq<Effect>
    requires n <= |items|
  {
    if n == 0 then []
    else
      Verdicts(items, shown, human, n - 1)
      + (if Obeyed(items, shown, human, n - 1)
         then Outcome(items[n - 1].id, TitleOf(shown, items[n - 1].id).value, items[n - 1].verdict) else [])
  }

  method ApplyRecheck(items: seq<Item>, shown: seq<Shown>, human: set<Id>)
    returns (log: seq<Effect>, revised: set<Id>)
    ensures log == Verdicts(items, shown, human, |items|)
    ensures forall id :: id in revised <==> exists k :: 0 <= k < |items| && Corrects(items, shown, human, id, k)
  {
    log, revised := [], {};
    var seen: set<Id> := {};
    for k := 0 to |items|
      invariant log == Verdicts(items, shown, human, k)
      invariant forall id :: id in seen <==>
                  TitleOf(shown, id).Some? && exists j :: 0 <= j < k && items[j].id == id
      invariant forall id :: id in revised <==> exists j :: 0 <= j < k && Corrects(items, shown, human, id, j)
    {
      var id := items[k].id;
      var title := TitleOf(shown, id);
      if title.None? {
        continue;
      }
      if id in seen {
        continue;
      }
      seen := seen + {id};
      if id in human {
        continue;
      }
      assert Obeyed(items, shown, human, k);
      match items[k].verdict {
        case Keep =>
          log := log + [Cleared(id)];
        case Retire =>
          log := log + [Withdrawn(id)];
        case Correct(text) =>
          if text != "" {
            assert Corrects(items, shown, human, id, k);
            log := log + [Superseded(id, title.value, text, false), Cleared(id)];
            revised := revised + {id};
          }
        case Unknown =>
      }
    }
  }

  /** What later verdicts write comes after what earlier ones did. */
  lemma {:induction false} VerdictsGrow(items: seq<Item>, shown: seq<Shown>, human: set<Id>, m: nat, n: nat)
    requires m <= n <= |items|
    ensures Verdicts(items, shown, human, m) <= Verdicts(items, shown, human, n)
  {
    if m < n {
      VerdictsGrow(items, shown, human, m, n - 1);
    }
  }

  function About(log: seq<Effect>, id: Id): seq<Effect> {
    if log == [] then []
    else
      About(log[..|log| - 1], id)
      + (if !log[|log| - 1].Knowledge? && log[|log| - 1].id == id then [log[|log| - 1]] else [])
  }

  lemma {:induction false} AboutPlus(a: seq<Effect>, b: seq<Effect>, id: Id)
    ensures About(a + b, id) == About(a, id) + About(b, id)
  {
    if b == [] {
      assert a + b == a;
    } else {
      assert (a + b)[..|a + b| - 1] == a + b[..|b| - 1];
      AboutPlus(a, b[..|b| - 1], id);
    }
  }

  lemma AboutOutcome(id: Id, title: string, verdict: Verdict, other: Id)
    ensures About(Outcome(id, title, verdict), other) == if other == id then Outcome(id, title, verdict) else []
  {
    var r := Outcome(id, title, verdict);
    if |r| == 2 {
      assert r[..1] == [r[0]] && [r[0]][..0] == [];
      assert About([r[0]], other) == if other == id then [r[0]] else [];
    } else if |r| == 1 {
      assert r[..0] == [];
    }
  }

  /** A lesson without a verdict, not shown, or corrected by a person is left alone. */
  lemma NoVerdictCounts(items: seq<Item>, shown: seq<Shown>, human: set<Id>, n: nat, id: Id)
    requires n <= |items|
    requires forall k :: 0 <= k < n && items[k].id == id ==> !Heeded(items, shown, human, k)
    ensures About(Verdicts(items, shown, human, n), id) == []
  {
    forall k: nat | k < n && items[k].id == id
      ensures !Obeyed(items, shown, human, k)
    {
      HeededIff(items, shown, human, k);
    }
    NoneObeyed(items, shown, human, n, id);
  }

  lemma {:induction false} NoneObeyed(
      items: seq<Item>, shown: seq<Shown>, human: set<Id>, n: nat, id: Id)
    requires n <= |items|
    requires forall k :: 0 <= k < n && items[k].id == id ==> !Obeyed(items, shown, human, k)
    ensures About(Verdicts(items, shown, human, n), id) == []
  {
    if n > 0 {
      NoneObeyed(items, shown, human, n - 1, id);
      VerdictStep(items, shown, human, n, id);
    }
  }

  lemma VerdictStep(items: seq<Item>, shown: seq<Shown>, human: set<Id>, n: nat, id: Id)
    requires 0 < n <= |items|
    ensures !Obeyed(items, shown, human, n - 1) || items[n - 1].id != id ==>
              About(Verdicts(items, shown, human, n), id) == About(Verdicts(items, shown, human, n - 1), id)
    ensures Obeyed(items, shown, human, n - 1) && items[n - 1].id == id
            && About(Verdicts(items, shown, human, n - 1), id) == [] ==>
              About(Verdicts(items, shown, human, n), id) ==
              Outcome(id, TitleOf(shown, id).value, items[n - 1].verdict)
  {
    var item := items[n - 1];
    var before := Verdicts(items, shown, human, n - 1);
    assert before + [] == before && About(before, id) + [] == About(before, id);
    if Obeyed(items, shown, human, n - 1) {
      var title := TitleOf(shown, item.id).value;
      var outcome := Outcome(item.id, title, item.verdict);
      assert [] + outcome == outcome;
      AboutPlus(before, outcome, id);
      AboutOutcome(item.id, title, item.verdict, id);
    }
  }

  lemma {:induction false} ObeyedCounts(
      items: seq<Item>, shown: seq<Shown>, human: set<Id>, n: nat, k: nat)
    requires k < n <= |items| && Obeyed(items, shown, human, k)
    ensures About(Verdicts(items, shown, human, n), items[k].id) ==
            Outcome(items[k].id, TitleOf(shown, items[k].id).value, items[k].verdict)
  {
    VerdictStep(items, shown, human, n, items[k].id);
    if k < n - 1 {
      ObeyedCounts(items, shown, human, n - 1, k);
    } else {
      NoneObeyed(items, shown, human, k, items[k].id);
    }
  }

  /** Of all verdicts on a lesson only the first counts, and only if the lesson
      was shown and no person has corrected it. */
  lemma FirstVerdictCounts(items: seq<Item>, shown: seq<Shown>, human: set<Id>, n: nat, k: nat, m: nat)
    requires k < n <= |items| && Heeded(items, shown, human, k) && IsShown(shown, m, items[k].id)
    ensures About(Verdicts(items, shown, human, n), items[k].id) ==
            Effects(items[k].id, shown[m].title, items[k].verdict)
  {
    HeededIff(items, shown, human, k);
    TitleIs(shown, m, items[k].id);
    ObeyedCounts(items, shown, human, n, k);
  }

  /** The lesson of this id, as it was shown. */
  predicate IsShown(shown: seq<Shown>, m: nat, id: Id) {
    m < |shown| && shown[m].id == id && forall j :: 0 <= j < m ==> shown[j].id != id
  }

  /** The first verdict on a lesson that was shown and that no person corrected. */
  predicate Heeded(items: seq<Item>, shown: seq<Shown>, human: set<Id>, k: nat) {
    && k < |items| && items[k].id !in human
    && (exists m :: 0 <= m < |shown| && shown[m].id == items[k].id)
    && forall j :: 0 <= j < k ==> items[j].id != items[k].id
  }

  /** The verdict is heeded and gives the lesson another wording. */
  predicate Corrects(items: seq<Item>, shown: seq<Shown>, human: set<Id>, id: Id, k: nat) {
    && Heeded(items, shown, human, k) && items[k].id == id
    && items[k].verdict.Correct? && items[k].verdict.text != ""
  }

  lemma HeededIff(items: seq<Item>, shown: seq<Shown>, human: set<Id>, k: nat)
    requires k < |items|
    ensures Heeded(items, shown, human, k) <==> Obeyed(items, shown, human, k)
  {
  }

  lemma {:induction false} TitleIs(shown: seq<Shown>, m: nat, id: Id)
    requires IsShown(shown, m, id)
    ensures TitleOf(shown, id) == Some(shown[m].title)
  {
    if m > 0 {
      assert forall j :: 0 <= j < m - 1 ==> shown[1..][j] == shown[j + 1];
      TitleIs(shown[1..], m - 1, id);
    }
  }

  /** What a verdict has written about its lesson: kept, a mark that it was looked
      at; retired, its withdrawal; corrected, the new wording under the title it was
      shown by, and the mark; anything else, nothing. */
  function Effects(id: Id, title: string, verdict: Verdict): seq<Effect> {
    if verdict == Keep then [Cleared(id)]
    else if verdict == Retire then [Withdrawn(id)]
    else if verdict.Correct? && verdict.text != "" then [Superseded(id, title, verdict.text, false), Cleared(id)]
    else []
  }

  lemma {:induction false} RevisionsPlus(a: seq<Effect>, b: seq<Effect>, id: Id)
    ensures RevisionsOf(a + b, id, false) == RevisionsOf(a, id, false) + RevisionsOf(b, id, false)
  {
    if b == [] {
      assert a + b == a;
    } else {
      assert (a + b)[..|a + b| - 1] == a + b[..|b| - 1];
      RevisionsPlus(a, b[..|b| - 1], id);
    }
  }

  lemma OutcomeRevises(id: Id, title: string, verdict: Verdict, other: Id)
    ensures RevisionsOf(Outcome(id, title, verdict), other, false) ==
            if id == other && verdict.Correct? && verdict.text != "" then 1 else 0
  {
    var r := Outcome(id, title, verdict);
    if |r| == 2 {
      assert r[..1] == [r[0]] && [r[0]][..0] == [];
      assert RevisionsOf([r[0]], other, false) == if id == other then 1 else 0;
    } else if |r| == 1 {
      assert r[..0] == [];
    }
  }

  lemma RevisionStep(items: seq<Item>, shown: seq<Shown>, human: set<Id>, n: nat, id: Id)
    requires 0 < n <= |items|
    ensures RevisionsOf(Verdicts(items, shown, human, n), id, false) ==
            RevisionsOf(Verdicts(items, shown, human, n - 1), id, false)
            + (if Corrects(items, shown, human, id, n - 1) then 1 else 0)
  {
    var item := items[n - 1];
    var before := Verdicts(items, shown, human, n - 1);
    HeededIff(items, shown, human, n - 1);
    if Obeyed(items, shown, human, n - 1) {
      var title := TitleOf(shown, item.id).value;
      RevisionsPlus(before, Outcome(item.id, title, item.verdict), id);
      OutcomeRevises(item.id, title, item.verdict, id);
    } else {
      assert before + [] == before;
    }
  }

  /** The recheck revises a page at most once, and if a verdict corrects it. */
  lemma {:induction false} VerdictRevisions(items: seq<Item>, shown: seq<Shown>, human: set<Id>, n: nat, id: Id)
    requires n <= |items|
    ensures RevisionsOf(Verdicts(items, shown, human, n), id, false) ==
            if exists k :: 0 <= k < n && Corrects(items, shown, human, id, k) then 1 else 0
  {
    if n > 0 {
      VerdictRevisions(items, shown, human, n - 1, id);
      RevisionStep(items, shown, human, n, id);
      forall k | 0 <= k < n - 1 && Corrects(items, shown, human, id, k)
        ensures !Corrects(items, shown, human, id, n - 1)
      {
      }
    }
  }

  /** Over the recheck and the entries of one answer, a page that a verdict
      corrects is revised exactly once. */
  lemma CorrectedExactlyOnce(
      items: seq<Item>, shown: seq<Shown>, human: set<Id>, c: Context, entries: seq<Entry>, id: Id)
    requires forall id :: id in c.revised <==> exists k :: 0 <= k < |items| && Corrects(items, shown, human, id, k)
    requires id in c.revised
    ensures RevisionsOf(Verdicts(items, shown, human, |items|) + After(c, entries).log, id, false) == 1
  {
    RevisionsPlus(Verdicts(items, shown, human, |items|), After(c, entries).log, id);
    VerdictRevisions(items, shown, human, |items|, id);
    RevisedIsLeftAlone(c, entries, id);
  }
}
