/** The exceptions to "one narrative per session", each with a run that needs it. */
module SessionClaimsWitness {
  import opened Basics
  import opened SessionClaims

  /** The last two runs of session `x` cover one event, and the later invocation
      began before the earlier run was recorded. */
  ghost predicate Overlap(s: State, earlier: Tier, later: Tier) {
    && "x" in s.rows && |s.rows["x"].records| >= 2
    && var rs := s.rows["x"].records;
       var a, b := rs[|rs| - 2], rs[|rs| - 1];
       !NotRedone(s.invs, a, b) && a.tier == earlier && b.tier == later
  }

  /** Of the session's `n` runs these were forgotten, were forgotten unsettled,
      and were recorded after their claim was lost. */
  predicate Marked(row: Row, n: nat, reopened: set<nat>, wiped: set<nat>, lost: set<nat>) {
    |row.records| == n && row.reopened == reopened && row.wiped == wiped && row.lost == lost
  }

  function Start(n: nat): State {
    State(0, map[], seq(n, _ => Invocation(None, Resting)))
  }

  ghost predicate Ends(s: State, ls: seq<Step>, end: State) {
    ValidRun(s, ls) && Final(s, ls) == end
  }

  // ---- Runs put together from parts. ----

  lemma {:induction false} Then(s: State, a: seq<Step>, b: seq<Step>)
    requires ValidRun(s, a) && ValidRun(Final(s, a), b)
    ensures ValidRun(s, a + b) && Final(s, a + b) == Final(Final(s, a), b)
    decreases |a|
  {
    if a == [] {
      assert a + b == b;
    } else {
      assert (a + b)[0] == a[0] && (a + b)[1..] == a[1..] + b;
      Then(Next(s, a[0]), a[1..], b);
    }
  }

  lemma One(s: State, l: Step)
    requires Enabled(s, l)
    ensures ValidRun(s, [l]) && Final(s, [l]) == Next(s, l)
  {
    assert [l][1..] == [];
  }

  lemma Three(s: State, a: Step, b: Step, c: Step)
    requires Enabled(s, a) && Enabled(Next(s, a), b) && Enabled(Next(Next(s, a), b), c)
    ensures ValidRun(s, [a, b, c]) && Final(s, [a, b, c]) == Next(Next(Next(s, a), b), c)
  {
    One(Next(Next(s, a), b), c);
    assert [b, c][1..] == [c];
    assert ValidRun(Next(s, a), [b, c]);
    assert [a, b, c][1..] == [b, c];
  }

  /** All that matters of a state: the time, the row of `x`, who is where. */
  datatype View = View(now: nat, row: Row, invs: seq<Invocation>)

  function Seen(s: State): View {
    View(s.now, RowOf(s, "x"), s.invs)
  }

  /** What a run leads to; none if it is no run. */
  ghost function Outcome(s: State, ls: seq<Step>): Option<View> {
    if ValidRun(s, ls) then Some(Seen(Final(s, ls))) else None
  }

  predicate Rests(s: State, i: nat) {
    i < |s.invs| && s.invs[i].stage.Resting? && s.invs[i].began == Some(0)
  }

  function In(s: State, i: nat, stage: Stage): seq<Invocation>
    requires i < |s.invs|
  {
    s.invs[i := s.invs[i].(stage := stage)]
  }

  /** Lists, claims - or takes the claim over - and finds no reason to stop. */
  function Engage(i: nat, newest: string, over: bool): seq<Step> {
    [Step.List(i, "x", newest), if over then Step.Steal(i) else Step.Claim(i), Step.Check(i)]
  }

  lemma Engages(s: State, i: nat, newest: string, over: bool)
    requires Rests(s, i) && RowOf(s, "x").claim.Some? == over && !Superseded(RowOf(s, "x"), newest, 0)
    ensures Outcome(s, Engage(i, newest, over)) ==
            Some(Seen(s).(row := RowOf(s, "x").(claim := Some(i)), invs := In(s, i, Working("x", newest))))
  {
    Three(s, Engage(i, newest, over)[0], Engage(i, newest, over)[1], Engage(i, newest, over)[2]);
    assert Final(s, Engage(i, newest, over)).invs == In(s, i, Working("x", newest));
  }

  lemma Records(s: State, i: nat, newest: string, tier: Tier)
    requires i < |s.invs| && s.invs[i].stage == Working("x", newest)
    ensures var row, r := RowOf(s, "x"), Record.Record(i, s.now, newest, tier);
            Outcome(s, [Step.Record(i, tier)]) ==
            Some(View(s.now, row.(last := Some(r), records := row.records + [r],
                                  lost := row.lost + if row.claim != Some(i) then {|row.records|} else {}),
                      In(s, i, Recorded("x"))))
  {
    One(s, Step.Record(i, tier));
  }

  lemma Releases(s: State, i: nat)
    requires i < |s.invs| && s.invs[i].stage == Recorded("x")
    ensures Outcome(s, [Release(i)]) == Some(Seen(s).(row := RowOf(s, "x").(claim := None), invs := In(s, i, Resting)))
  {
    One(s, Release(i));
  }

  lemma Judges(s: State, i: nat)
    requires Rests(s, i) && IsSettled(RowOf(s, "x"))
    ensures Outcome(s, [Judge(i, "x")]) == Some(Seen(s).(invs := In(s, i, Reopening("x"))))
  {
    One(s, Judge(i, "x"));
  }

  /** A row whose last run a reopening forgot. */
  function Forgotten(row: Row): Row
    requires row.last.Some? && row.records != []
  {
    var k := |row.records| - 1;
    row.(claim := None, last := None, reopened := row.reopened + {k},
         wiped := row.wiped + if IsSettled(row) then {} else {k})
  }

  lemma Forgets(s: State, i: nat)
    requires i < |s.invs| && s.invs[i].stage == Reopening("x")
    requires RowOf(s, "x").last.Some? && RowOf(s, "x").records != []
    ensures var row := RowOf(s, "x");
            Outcome(s, [Forget(i)]) == Some(View(s.now, Forgotten(row), In(s, i, Resting)))
  {
    One(s, Forget(i));
  }

  lemma Ticks(s: State)
    ensures Outcome(s, [Tick]) == Some(Seen(s).(now := s.now + 1))
  {
    One(s, Tick);
  }

  /** Two invocations have begun. */
  lemma TwoBegin()
    ensures Outcome(Start(2), [Begin(0), Begin(1)]) ==
            Some(View(0, NO_ROW, [Invocation(Some(0), Resting), Invocation(Some(0), Resting)]))
  {
    One(Start(2), Begin(0));
    One(Next(Start(2), Begin(0)), Begin(1));
    Then(Start(2), [Begin(0)], [Begin(1)]);
    assert [Begin(0)] + [Begin(1)] == [Begin(0), Begin(1)];
    assert Final(Start(2), [Begin(0), Begin(1)]).invs == [Invocation(Some(0), Resting), Invocation(Some(0), Resting)];
  }

  /** One invocation records a run of `x` and lets go. */
  function Pass(i: nat, newest: string, tier: Tier): seq<Step> {
    [Tick] + Engage(i, newest, false) + [Step.Record(i, tier)] + [Release(i)]
  }

  lemma Passes(s: State, i: nat, newest: string, tier: Tier)
    requires Rests(s, i) && RowOf(s, "x").claim.None? && !Superseded(RowOf(s, "x"), newest, 0)
    ensures var row, r := RowOf(s, "x"), Record.Record(i, s.now + 1, newest, tier);
            Outcome(s, Pass(i, newest, tier)) ==
            Some(Seen(s).(now := s.now + 1, row := row.(last := Some(r), records := row.records + [r])))
  {
    Ticks(s);
    var s1 := Final(s, [Tick]);
    Engages(s1, i, newest, false);
    var s2 := Final(s1, Engage(i, newest, false));
    Then(s, [Tick], Engage(i, newest, false));
    Records(s2, i, newest, tier);
    var s3 := Final(s2, [Step.Record(i, tier)]);
    Then(s, [Tick] + Engage(i, newest, false), [Step.Record(i, tier)]);
    Releases(s3, i);
    Then(s, [Tick] + Engage(i, newest, false) + [Step.Record(i, tier)], [Release(i)]);
    assert Final(s3, [Release(i)]).invs == s.invs;
    assert RowOf(s, "x").lost + {} == RowOf(s, "x").lost;
  }

  lemma Reopens(s: State, i: nat)
    requires Rests(s, i) && IsSettled(RowOf(s, "x")) && RowOf(s, "x").records != []
    ensures Outcome(s, [Judge(i, "x")] + [Forget(i)]) == Some(Seen(s).(row := Forgotten(RowOf(s, "x"))))
  {
    Judges(s, i);
    Forgets(Final(s, [Judge(i, "x")]), i);
    Then(s, [Judge(i, "x")], [Forget(i)]);
    assert Final(s, [Judge(i, "x")] + [Forget(i)]).invs == s.invs;
  }

  /** Two invocations under way, the second of which has the claim, record one
      after the other. */
  function InTurn(first: nat): seq<Step>
    requires first < 2
  {
    [Tick] + [Step.Record(first, Narrated)] + [Step.Record(1 - first, Narrated)]
  }

  lemma BothRecord(s: State, first: nat)
    requires first < 2 && |s.invs| == 2 && s.now == 1 && RowOf(s, "x").claim == Some(1)
    requires s.invs[0].stage == s.invs[1].stage == Working("x", "e")
    requires s.invs[0].began == s.invs[1].began == Some(0)
    ensures var row, n := RowOf(s, "x"), |RowOf(s, "x").records|;
            exists end :: Ends(s, InTurn(first), end) && Overlap(end, Narrated, Narrated)
                          && Marked(RowOf(end, "x"), n + 2, row.reopened, row.wiped, row.lost + {n + first})
  {
    Ticks(s);
    var s1 := Final(s, [Tick]);
    Records(s1, first, "e", Narrated);
    var s2 := Final(s1, [Step.Record(first, Narrated)]);
    Then(s, [Tick], [Step.Record(first, Narrated)]);
    Records(s2, 1 - first, "e", Narrated);
    Then(s, [Tick] + [Step.Record(first, Narrated)], [Step.Record(1 - first, Narrated)]);
    var end := Final(s2, [Step.Record(1 - first, Narrated)]);
    assert Ends(s, InTurn(first), end);
    assert RowOf(end, "x").lost == RowOf(s, "x").lost + {|RowOf(s, "x").records| + first};
  }

  // ---- The runs. ----

  const BEGIN: seq<Step> := [Begin(0), Begin(1)]

  /** One invocation settles a session; a forced ask it drains reopens it, and it
      records the same event again. */
  const REOPENED: seq<Step> :=
    BEGIN + Pass(0, "e", Settled) + ([Judge(0, "x")] + [Forget(0)]) + Pass(0, "e", Narrated)

  /** Nobody is in the way, no claim is lost: the row that would have stopped the
      second run is gone. */
  lemma ReopenedRedoes()
    ensures Init(Start(2))
    ensures exists end :: Ends(Start(2), REOPENED, end)
                          && Overlap(end, Settled, Narrated) && Marked(RowOf(end, "x"), 2, {0}, {}, {})
  {
    TwoBegin();
    var s1 := Final(Start(2), BEGIN);
    Passes(s1, 0, "e", Settled);
    Then(Start(2), BEGIN, Pass(0, "e", Settled));
    var s2 := Final(s1, Pass(0, "e", Settled));
    Reopens(s2, 0);
    Then(Start(2), BEGIN + Pass(0, "e", Settled), [Judge(0, "x")] + [Forget(0)]);
    var s3 := Final(s2, [Judge(0, "x")] + [Forget(0)]);
    Passes(s3, 0, "e", Narrated);
    Then(Start(2), BEGIN + Pass(0, "e", Settled) + ([Judge(0, "x")] + [Forget(0)]), Pass(0, "e", Narrated));
    assert Ends(Start(2), REOPENED, Final(s3, Pass(0, "e", Narrated)));
  }

  /** A claim is taken over while its holder still works. */
  const TAKEN_OVER: seq<Step> := BEGIN + [Tick] + Engage(0, "e", false) + Engage(1, "e", true)

  lemma TakesOver()
    ensures Outcome(Start(2), TAKEN_OVER) ==
            Some(View(1, NO_ROW.(claim := Some(1)), [Invocation(Some(0), Working("x", "e")),
                                                     Invocation(Some(0), Working("x", "e"))]))
  {
    TwoBegin();
    var s1 := Final(Start(2), BEGIN);
    Ticks(s1);
    Then(Start(2), BEGIN, [Tick]);
    var s2 := Final(s1, [Tick]);
    Engages(s2, 0, "e", false);
    Then(Start(2), BEGIN + [Tick], Engage(0, "e", false));
    var s3 := Final(s2, Engage(0, "e", false));
    Engages(s3, 1, "e", true);
    Then(Start(2), BEGIN + [Tick] + Engage(0, "e", false), Engage(1, "e", true));
    assert Final(s3, Engage(1, "e", true)).invs
        == [Invocation(Some(0), Working("x", "e")), Invocation(Some(0), Working("x", "e"))];
  }

  const STOLEN: seq<Step> := TAKEN_OVER + InTurn(0)

  /** The one that lost the claim records first. */
  lemma StolenClaimRedoes()
    ensures Init(Start(2))
    ensures exists end :: Ends(Start(2), STOLEN, end)
                          && Overlap(end, Narrated, Narrated) && Marked(RowOf(end, "x"), 2, {}, {}, {0})
  {
    TakesOver();
    BothRecord(Final(Start(2), TAKEN_OVER), 0);
    Then(Start(2), TAKEN_OVER, InTurn(0));
  }

  const LATE: seq<Step> := TAKEN_OVER + InTurn(1)

  /** The one that lost the claim records last. */
  lemma LateRecordRedoes()
    ensures Init(Start(2))
    ensures exists end :: Ends(Start(2), LATE, end)
                          && Overlap(end, Narrated, Narrated) && Marked(RowOf(end, "x"), 2, {}, {}, {1})
  {
    TakesOver();
    BothRecord(Final(Start(2), TAKEN_OVER), 1);
    Then(Start(2), TAKEN_OVER, InTurn(1));
  }

  /** A session settled before is being worked on for a newer event when a
      reopening deletes its row, the claim with it. */
  const ERASED: seq<Step> :=
    BEGIN + Pass(0, "d", Settled) + Engage(0, "e", false) + ([Judge(1, "x")] + [Forget(1)]) + Engage(1, "e", false)
    + InTurn(0)

  lemma ErasedClaimRedoes()
    ensures Init(Start(2))
    ensures exists end :: Ends(Start(2), ERASED, end)
                          && Overlap(end, Narrated, Narrated) && Marked(RowOf(end, "x"), 3, {0}, {}, {1})
  {
    TwoBegin();
    var s1 := Final(Start(2), BEGIN);
    Passes(s1, 0, "d", Settled);
    Then(Start(2), BEGIN, Pass(0, "d", Settled));
    var s2 := Final(s1, Pass(0, "d", Settled));
    Different();
    Engages(s2, 0, "e", false);
    Then(Start(2), BEGIN + Pass(0, "d", Settled), Engage(0, "e", false));
    ErasedFrom(BEGIN + Pass(0, "d", Settled) + Engage(0, "e", false), Final(s2, Engage(0, "e", false)));
  }

  lemma ErasedFrom(ls: seq<Step>, s: State)
    requires ValidRun(Start(2), ls) && Final(Start(2), ls) == s && s.now == 1 && Rests(s, 1)
    requires s.invs == [Invocation(Some(0), Working("x", "e")), Invocation(Some(0), Resting)]
    requires IsSettled(RowOf(s, "x")) && Marked(RowOf(s, "x"), 1, {}, {}, {})
    ensures exists end :: Ends(Start(2), ls + ([Judge(1, "x")] + [Forget(1)]) + Engage(1, "e", false) + InTurn(0), end)
                          && Overlap(end, Narrated, Narrated) && Marked(RowOf(end, "x"), 3, {0}, {}, {1})
  {
    Reopens(s, 1);
    Then(Start(2), ls, [Judge(1, "x")] + [Forget(1)]);
    var s1 := Final(s, [Judge(1, "x")] + [Forget(1)]);
    Engages(s1, 1, "e", false);
    Then(Start(2), ls + ([Judge(1, "x")] + [Forget(1)]), Engage(1, "e", false));
    var s2 := Final(s1, Engage(1, "e", false));
    BothRecord(s2, 0);
    Then(Start(2), ls + ([Judge(1, "x")] + [Forget(1)]) + Engage(1, "e", false), InTurn(0));
  }

  lemma Different()
    ensures "d" != "e"
  {
    assert "d"[0] != "e"[0];
  }

  /** A session is judged settled, a narrative of a newer event is recorded, and
      only then its row is deleted. */
  const WIPED: seq<Step> :=
    BEGIN + Pass(0, "d", Settled) + [Judge(1, "x")] + Pass(0, "e", Narrated) + [Forget(1)] + Pass(1, "e", Narrated)

  /** Every claim is kept to its end, and the narrative is written again. */
  lemma WipedRunRedoes()
    ensures Init(Start(2))
    ensures exists end :: Ends(Start(2), WIPED, end)
                          && Overlap(end, Narrated, Narrated) && Marked(RowOf(end, "x"), 3, {1}, {1}, {})
  {
    TwoBegin();
    var s := Final(Start(2), BEGIN);
    Passes(s, 0, "d", Settled);
    Then(Start(2), BEGIN, Pass(0, "d", Settled));
    WipedFrom(BEGIN + Pass(0, "d", Settled), Final(s, Pass(0, "d", Settled)));
  }

  lemma WipedFrom(ls: seq<Step>, s: State)
    requires ValidRun(Start(2), ls) && Final(Start(2), ls) == s && Marked(RowOf(s, "x"), 1, {}, {}, {})
    requires |s.invs| == 2 && Rests(s, 0) && Rests(s, 1) && RowOf(s, "x").claim.None? && IsSettled(RowOf(s, "x"))
    requires RowOf(s, "x").last.value.event == "d"
    ensures var run := ls + [Judge(1, "x")] + Pass(0, "e", Narrated) + [Forget(1)] + Pass(1, "e", Narrated);
            exists end :: Ends(Start(2), run, end)
                          && Overlap(end, Narrated, Narrated) && Marked(RowOf(end, "x"), 3, {1}, {1}, {})
  {
    Judges(s, 1);
    Then(Start(2), ls, [Judge(1, "x")]);
    var s1 := Final(s, [Judge(1, "x")]);
    Different();
    Passes(s1, 0, "e", Narrated);
    Then(Start(2), ls + [Judge(1, "x")], Pass(0, "e", Narrated));
    WipedAt(ls + [Judge(1, "x")] + Pass(0, "e", Narrated), Final(s1, Pass(0, "e", Narrated)));
  }

  lemma WipedAt(ls: seq<Step>, s: State)
    requires ValidRun(Start(2), ls) && Final(Start(2), ls) == s && Marked(RowOf(s, "x"), 2, {}, {}, {})
    requires |s.invs| == 2 && s.now > 0
    requires s.invs[1] == Invocation(Some(0), Reopening("x")) && RowOf(s, "x").claim.None?
    requires var row := RowOf(s, "x");
             && row.last.Some? && row.records != [] && row.last.value == row.records[|row.records| - 1]
             && row.last.value.event == "e" && row.last.value.tier.Narrated? && row.last.value.at > 0
    ensures exists end :: Ends(Start(2), ls + [Forget(1)] + Pass(1, "e", Narrated), end)
                          && Overlap(end, Narrated, Narrated) && Marked(RowOf(end, "x"), 3, {1}, {1}, {})
  {
    Forgets(s, 1);
    Then(Start(2), ls, [Forget(1)]);
    var s1 := Final(s, [Forget(1)]);
    Passes(s1, 1, "e", Narrated);
    Then(Start(2), ls + [Forget(1)], Pass(1, "e", Narrated));
    assert Ends(Start(2), ls + [Forget(1)] + Pass(1, "e", Narrated), Final(s1, Pass(1, "e", Narrated)));
    assert Forgotten(RowOf(s, "x")).wiped == {1};
  }
}
