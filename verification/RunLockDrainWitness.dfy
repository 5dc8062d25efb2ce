/** Runs in which nobody fails, yet an ask stays open or two hold the lock. */
module RunLockDrainWitness {
  import opened Basics
  import opened RunLock
  import opened RunLockSafety
  import opened RunLockWitness

  lemma Names()
    ensures forall i, j :: 0 <= i < j < |FIVE| ==> !SameWork(FIVE[i], FIVE[j]) && !SameWork(FIVE[j], FIVE[i])
  {
    assert "a"[0] == 'a' && "b"[0] == 'b' && "c"[0] == 'c' && "d"[0] == 'd' && "e"[0] == 'e';
  }

  const FIVE: seq<Ask> := [Told("a"), Told("b"), Told("c"), Told("d"), Told("e")]

  // ---- The ask was served already. ----

  const SERVED_TO: seq<Label> := Begin(0, FIVE[0]) + [WriteAsk(1, FIVE[1])] + (Pass(0, 1) + Resume(0))

  /** Invocation 0 drains the ask of invocation 1, which has yet to try the lock. */
  function Draining(): State {
    State(FIVE[..2], {}, Some(0), [Working(Serve(1), 2, 1), Wants(OwnAsk(1)), Unborn], [2, 0, 0], {0}, {}, {}, {})
  }

  function Asking(): State {
    State(FIVE[..2], {1}, Some(0), [Working(Serve(0), 1, 0), Wants(OwnAsk(1)), Unborn],
          [1, 0, 0], {}, {}, {}, {})
  }

  lemma OneAsks()
    ensures Leads(Start(3), Begin(0, FIVE[0]) + [WriteAsk(1, FIVE[1])]) == To([], Asking()) && WellFormed(Asking())
  {
    var s0, w := Start(3), Working(Serve(0), 1, 0);
    Begins(s0, 0, FIVE[0]);
    var s1 := State(FIVE[..1], {}, Some(0), [w, Unborn, Unborn], [1, 0, 0], {}, {}, {}, {});
    assert SetToWork(s0, 0, FIVE[0]) == s1;
    Step(s0, Begin(0, FIVE[0]), [], s1, WriteAsk(1, FIVE[1]), Asking());
  }

  lemma DrainsTheOther()
    ensures Leads(Start(3), SERVED_TO) == To([], Draining()) && WellFormed(Draining())
  {
    OneAsks();
    var s, ls := Asking(), Begin(0, FIVE[0]) + [WriteAsk(1, FIVE[1])];
    FirstDrained(s);
    AndThen(Start(3), ls, [], s, Pass(0, 1) + Resume(0), Draining());
  }

  lemma FirstDrained(s: State)
    requires s == Asking()
    ensures Leads(s, Pass(0, 1) + Resume(0)) == To([], Draining()) && WellFormed(Draining())
  {
    Names();
    Passes(s, 0, 1);
    assert StoodFor(s, 0, 1) == {0};
    Resumes(Passed(s, 0, 1), 0);
    assert Resumed(Passed(s, 0, 1), 0) == Draining();
    AndThen(s, Pass(0, 1), [], Passed(s, 0, 1), Resume(0), Draining());
  }

  const SERVED_BETWEEN: seq<Label> :=
    SERVED_TO + [Finish(0)] + [Drop(0, false)] + [Create(1)] + Meet(2, FIVE[2])

  /** 0 let go and is about to look; 1 got the lock; 2 wrote an ask and stood aside. */
  function Between(): State {
    State(FIVE[..3], {2}, Some(1), [Looking(1), Entered(OwnAsk(1)), Ended], [2, 0, 0], {0, 1}, {}, {}, {})
  }

  lemma OneGetsTheLock()
    ensures Leads(Start(3), SERVED_BETWEEN) == To([], Between()) && WellFormed(Between())
  {
    DrainsTheOther();
    var s := Draining();
    HeadsOff(s);
    var s1 := s.(served := {0, 1}, file := Some(1), procs := [Looking(1), Entered(OwnAsk(1)), Unborn]);
    AndThen(Start(3), SERVED_TO, [], s, [] + [Finish(0)] + [Drop(0, false)] + [Create(1)], s1);
    assert SERVED_TO + ([] + [Finish(0)] + [Drop(0, false)] + [Create(1)])
        == SERVED_TO + [Finish(0)] + [Drop(0, false)] + [Create(1)];
    Meets(s1, 2, FIVE[2]);
    assert Met(s1, 2, FIVE[2]) == Between();
    AndThen(Start(3), SERVED_TO + [Finish(0)] + [Drop(0, false)] + [Create(1)], [], s1, Meet(2, FIVE[2]), Between());
  }

  lemma HeadsOff(s: State)
    requires s == Draining()
    ensures var t := s.(served := {0, 1}, file := Some(1), procs := [Looking(1), Entered(OwnAsk(1)), Unborn]);
            Leads(s, [] + [Finish(0)] + [Drop(0, false)] + [Create(1)]) == To([], t) && WellFormed(t)
  {
    SecondDone();
    LetsGo(s, 0);
    OtherEnters(s, Free(s, 0));
  }

  lemma OtherEnters(from: State, s: State)
    requires s == Draining().(served := {0, 1}, file := None, procs := [Looking(1), Wants(OwnAsk(1)), Unborn])
    requires Leads(from, LetGo(0)) == To([], s)
    ensures var t := s.(file := Some(1), procs := [Looking(1), Entered(OwnAsk(1)), Unborn]);
            Leads(from, [] + [Finish(0)] + [Drop(0, false)] + [Create(1)]) == To([], t) && WellFormed(t)
  {
    var t := s.(file := Some(1), procs := [Looking(1), Entered(OwnAsk(1)), Unborn]);
    Step(from, LetGo(0), [], s, Create(1), t);
  }

  lemma SecondDone()
    ensures Free(Draining(), 0)
         == Draining().(served := {0, 1}, file := None, procs := [Looking(1), Wants(OwnAsk(1)), Unborn])
  {
    Names();
    assert StoodFor(Draining(), 1, 2) == {1};
  }

  const SERVED: seq<Label> :=
    SERVED_BETWEEN + [Look(0, Some(2))] + [Create(0)] + ([] + [Stat(0, false)] + [Read(0, false)])
    + [Consume(1)] + [Drop(1, false)]

  /** The holder finds its own ask served and returns without looking: the ask of
      another, met by it alone, stays open, and nobody failed. */
  lemma ServedReturnLosesAsk()
    ensures exists t :: Leads(Start(3), SERVED) == To([Drop(1, false)], t)
                        && LeftOpen(t, 2) && t.runs == [2, 0, 0]
  {
    OneGetsTheLock();
    var s := Between();
    var s1 := s.(procs := [Refused(NextAsk(2, 1)), Entered(OwnAsk(1)), Ended]);
    LooksAndIsRefused(s);
    AndThen(Start(3), SERVED_BETWEEN, [], s, [] + [Look(0, Some(2))] + [Create(0)], s1);
    assert SERVED_BETWEEN + ([] + [Look(0, Some(2))] + [Create(0)])
        == SERVED_BETWEEN + [Look(0, Some(2))] + [Create(0)];
    GoesAside(SERVED_BETWEEN + [Look(0, Some(2))] + [Create(0)], s1);
  }

  lemma LooksAndIsRefused(s: State)
    requires s == Between()
    ensures var t := s.(procs := [Refused(NextAsk(2, 1)), Entered(OwnAsk(1)), Ended]);
            Leads(s, [] + [Look(0, Some(2))] + [Create(0)]) == To([], t) && WellFormed(t)
  {
    Nothing(s);
    var s1 := s.(procs := [Wants(NextAsk(2, 1)), Entered(OwnAsk(1)), Ended]);
    Step(s, [], [], s, Look(0, Some(2)), s1);
    Step(s, [] + [Look(0, Some(2))], [], s1, Create(0),
         s.(procs := [Refused(NextAsk(2, 1)), Entered(OwnAsk(1)), Ended]));
  }

  lemma GoesAside(ls: seq<Label>, s: State)
    requires s == Between().(procs := [Refused(NextAsk(2, 1)), Entered(OwnAsk(1)), Ended])
    requires Leads(Start(3), ls) == To([], s) && WellFormed(s)
    ensures var run := ls + ([] + [Stat(0, false)] + [Read(0, false)]) + [Consume(1)] + [Drop(1, false)];
            exists t :: Leads(Start(3), run) == To([Drop(1, false)], t)
                        && LeftOpen(t, 2) && t.runs == [2, 0, 0]
  {
    Aside(s, 0);
    var t := Between().(procs := [Ended, Entered(OwnAsk(1)), Ended]);
    assert s.procs[0 := Ended] == t.procs;
    AndThen(Start(3), ls, [], s, [] + [Stat(0, false)] + [Read(0, false)], t);
    FindsItServed(ls + ([] + [Stat(0, false)] + [Read(0, false)]), t);
  }

  lemma FindsItServed(ls: seq<Label>, s: State)
    requires s == Between().(procs := [Ended, Entered(OwnAsk(1)), Ended]) && Leads(Start(3), ls) == To([], s)
    ensures exists t :: Leads(Start(3), ls + [Consume(1)] + [Drop(1, false)]) == To([Drop(1, false)], t)
                        && LeftOpen(t, 2) && t.runs == [2, 0, 0]
  {
    var s1 := s.(procs := [Ended, Quitting, Ended]);
    Step(Start(3), ls, [], s, Consume(1), s1);
    var s2 := s1.(procs := [Ended, Ended, Ended], file := None, excused := Undone(s1));
    Exit(Start(3), ls + [Consume(1)], [], s1, Drop(1, false), s2);
    assert [] + [Drop(1, false)] == [Drop(1, false)];
    assert LeftOpen(s2, 2);
  }

  // ---- The drain rounds are spent. ----

  const CROWD: seq<Label> :=
    Begin(0, FIVE[0]) + Meet(1, FIVE[1]) + Meet(2, FIVE[2]) + Meet(3, FIVE[3]) + Meet(4, FIVE[4])

  /** Invocation 0 is at its ask number `d`; those behind it are open. */
  ghost predicate InRound(s: State, d: nat) {
    && s.asks == FIVE && s.file == Some(0) && |s.procs| == |s.runs| == 5
    && (forall a :: a in s.open <==> d < a < 5)
    && s.procs[0].Working? && s.procs[0].job == Serve(d) && s.procs[0].upto <= 5 && s.procs[0].drained == d
    && s.procs[1..] == [Ended, Ended, Ended, Ended] && s.runs == [d + 1, 0, 0, 0, 0] && !Done(s, 4)
  }

  /** Invocation 0 at work, those up to `n` met it and stood aside. */
  function Crowd(n: nat): State
    requires 1 <= n <= 5
  {
    State(FIVE[..n], Rows(n) - {0}, Some(0),
          seq(5, p => if p == 0 then Working(Serve(0), 1, 0) else if p < n then Ended else Unborn),
          [1, 0, 0, 0, 0], {}, {}, {}, {})
  }

  lemma CrowdGrows(n: nat)
    requires 1 <= n < 5
    ensures Met(Crowd(n), n, FIVE[n]) == Crowd(n + 1)
  {
    assert FIVE[..n] + [FIVE[n]] == FIVE[..n + 1];
    assert Crowd(n).open + {n} == Crowd(n + 1).open;
    assert Crowd(n).procs[n := Ended] == Crowd(n + 1).procs;
  }

  lemma Crowded()
    ensures exists s :: Leads(Start(5), CROWD) == To([], s) && WellFormed(s) && InRound(s, 0)
  {
    OneBegins();
    Joins(Begin(0, FIVE[0]), 1);
    Joins(Begin(0, FIVE[0]) + Meet(1, FIVE[1]), 2);
    Joins(Begin(0, FIVE[0]) + Meet(1, FIVE[1]) + Meet(2, FIVE[2]), 3);
    Joins(Begin(0, FIVE[0]) + Meet(1, FIVE[1]) + Meet(2, FIVE[2]) + Meet(3, FIVE[3]), 4);
    CrowdInRound();
  }

  lemma OneBegins()
    ensures Leads(Start(5), Begin(0, FIVE[0])) == To([], Crowd(1)) && WellFormed(Crowd(1))
  {
    Begins(Start(5), 0, FIVE[0]);
    assert SetToWork(Start(5), 0, FIVE[0]) == Crowd(1) by {
      assert Crowd(1).open == {};
    }
  }

  lemma CrowdInRound()
    ensures InRound(Crowd(5), 0)
  {
    assert FIVE[..5] == FIVE;
  }

  lemma Joins(ls: seq<Label>, n: nat)
    requires 1 <= n < 5 && Leads(Start(5), ls) == To([], Crowd(n)) && WellFormed(Crowd(n))
    ensures Leads(Start(5), ls + Meet(n, FIVE[n])) == To([], Crowd(n + 1)) && WellFormed(Crowd(n + 1))
  {
    CrowdGrows(n);
    Meets(Crowd(n), n, FIVE[n]);
    AndThen(Start(5), ls, [], Crowd(n), Meet(n, FIVE[n]), Crowd(n + 1));
  }

  lemma OneRound(ls: seq<Label>, d: nat)
    requires d < MAX_DRAIN_ROUNDS
    requires exists s :: Leads(Start(5), ls) == To([], s) && WellFormed(s) && InRound(s, d)
    ensures exists t :: Leads(Start(5), ls + (Pass(0, d + 1) + Resume(0))) == To([], t)
                        && WellFormed(t) && InRound(t, d + 1)
  {
    var s :| Leads(Start(5), ls) == To([], s) && WellFormed(s) && InRound(s, d);
    Names();
    Passes(s, 0, d + 1);
    var s1 := Passed(s, 0, d + 1);
    Resumes(s1, 0);
    var t := Resumed(s1, 0);
    AndThen(s, Pass(0, d + 1), [], s1, Resume(0), t);
    AndThen(Start(5), ls, [], s, Pass(0, d + 1) + Resume(0), t);
    RoundOver(s, d, t);
  }

  lemma RoundOver(s: State, d: nat, t: State)
    requires WellFormed(s) && InRound(s, d) && d < MAX_DRAIN_ROUNDS && t == Resumed(Passed(s, 0, d + 1), 0)
    ensures InRound(t, d + 1)
  {
    Names();
    assert t.procs[1..] == s.procs[1..];
  }

  const SPENT: seq<Label> :=
    CROWD + (Pass(0, 1) + Resume(0)) + (Pass(0, 2) + Resume(0)) + (Pass(0, 3) + Resume(0))
    + [Finish(0)] + [Drop(0, false)]

  /** The holder has done its own ask and three others: it ends without looking,
      with time left, and the fifth ask stays open. */
  lemma RoundLimitLosesAsk()
    ensures exists t :: Leads(Start(5), SPENT) == To([Drop(0, false)], t)
                        && LeftOpen(t, 4) && t.runs == [4, 0, 0, 0, 0]
  {
    Crowded();
    OneRound(CROWD, 0);
    OneRound(CROWD + (Pass(0, 1) + Resume(0)), 1);
    OneRound(CROWD + (Pass(0, 1) + Resume(0)) + (Pass(0, 2) + Resume(0)), 2);
    RoundsSpent(CROWD + (Pass(0, 1) + Resume(0)) + (Pass(0, 2) + Resume(0)) + (Pass(0, 3) + Resume(0)));
  }

  lemma RoundsSpent(ls: seq<Label>)
    requires exists s :: Leads(Start(5), ls) == To([], s) && WellFormed(s) && InRound(s, 3)
    ensures exists t :: Leads(Start(5), ls + [Finish(0)] + [Drop(0, false)]) == To([Drop(0, false)], t)
                        && LeftOpen(t, 4) && t.runs == [4, 0, 0, 0, 0]
  {
    var s :| Leads(Start(5), ls) == To([], s) && WellFormed(s) && InRound(s, 3);
    var s1 := LastPassed(s);
    Step(Start(5), ls, [], s, Finish(0), s1);
    FifthWaits(s);
    LastDrop(ls + [Finish(0)], s1, s.procs);
  }

  function LastPassed(s: State): State
    requires WellFormed(s) && |s.procs| > 0 && s.procs[0].Working? && 3 < |s.asks|
  {
    s.(procs := s.procs[0 := Passing(3)], served := s.served + StoodFor(s, 3, s.procs[0].upto))
  }

  lemma FifthWaits(s: State)
    requires WellFormed(s) && InRound(s, 3)
    ensures !Done(LastPassed(s), 4)
  {
    Names();
    assert !SameWork(FIVE[4], FIVE[3]);
  }

  lemma LastDrop(ls: seq<Label>, s: State, procs: seq<Pc>)
    requires Leads(Start(5), ls) == To([], s) && WellFormed(s) && |procs| == 5 && s.procs == procs[0 := Passing(3)]
    requires procs[1..] == [Ended, Ended, Ended, Ended] && s.asks == FIVE
    requires 4 in s.open && !Done(s, 4) && s.runs == [4, 0, 0, 0, 0]
    ensures exists t :: Leads(Start(5), ls + [Drop(0, false)]) == To([Drop(0, false)], t)
                        && LeftOpen(t, 4) && t.runs == [4, 0, 0, 0, 0]
  {
    var t := s.(file := None, procs := s.procs[0 := Ended], excused := s.excused + Undone(s));
    Exit(Start(5), ls, [], s, Drop(0, false), t);
    assert [] + [Drop(0, false)] == [Drop(0, false)];
    assert forall p :: 1 <= p < 5 ==> t.procs[p] == procs[1..][p - 1];
    assert LeftOpen(t, 4);
  }

  // ---- Two holders. ----

  const TWO_HOLD: seq<Label> :=
    Begin(0, FIVE[0]) + [WriteAsk(1, FIVE[1])] + [Create(1)] + [Finish(0)] + [Drop(0, false)]
    + [Stat(1, false)] + [Read(1, false)] + [StartBorrow(2)] + [Create(2)] + [Evict(1)] + [Create(1)]

  /** 1 is refused while 0 holds the lock; 0 lets go; 1 finds no file and takes
      that for a dead holder's; 2 takes the lock; 1 removes 2's file and takes
      the lock beside it.  No step of the run is an error, a kill or an exit. */
  lemma TwoHoldersWithoutAKill()
    ensures exists t :: Leads(Start(3), TWO_HOLD) == To([], t)
                        && |t.procs| == 3 && Holding(t.procs[1]) && Holding(t.procs[2])
  {
    OneAsks();
    var s := Asking();
    HolderLetsGo(s);
    var t := s.(served := {0}, file := None, procs := [Looking(0), Refused(OwnAsk(1)), Unborn]);
    var ls := Begin(0, FIVE[0]) + [WriteAsk(1, FIVE[1])];
    AndThen(Start(3), ls, [], s, [] + [Create(1)] + [Finish(0)] + [Drop(0, false)], t);
    assert ls + ([] + [Create(1)] + [Finish(0)] + [Drop(0, false)])
        == ls + [Create(1)] + [Finish(0)] + [Drop(0, false)];
    FileIsGone(t);
  }

  lemma HolderLetsGo(s: State)
    requires s == Asking()
    ensures var t := s.(served := {0}, file := None, procs := [Looking(0), Refused(OwnAsk(1)), Unborn]);
            Leads(s, [] + [Create(1)] + [Finish(0)] + [Drop(0, false)]) == To([], t) && WellFormed(t)
  {
    Nothing(s);
    var s1 := s.(procs := [Working(Serve(0), 1, 0), Refused(OwnAsk(1)), Unborn]);
    Step(s, [], [], s, Create(1), s1);
    LosesHolder(s, [] + [Create(1)], s1);
  }

  lemma LosesHolder(from: State, ls: seq<Label>, s: State)
    requires s == Asking().(procs := [Working(Serve(0), 1, 0), Refused(OwnAsk(1)), Unborn])
    requires Leads(from, ls) == To([], s)
    ensures var t := Asking().(served := {0}, file := None, procs := [Looking(0), Refused(OwnAsk(1)), Unborn]);
            Leads(from, ls + [Finish(0)] + [Drop(0, false)]) == To([], t) && WellFormed(t)
  {
    var t := Asking().(served := {0}, file := None, procs := [Looking(0), Refused(OwnAsk(1)), Unborn]);
    FreesTheLock(s);
    AndThen(from, ls, [], s, LetGo(0), t);
    assert ls + LetGo(0) == ls + [Finish(0)] + [Drop(0, false)];
  }

  lemma FreesTheLock(s: State)
    requires s == Asking().(procs := [Working(Serve(0), 1, 0), Refused(OwnAsk(1)), Unborn])
    ensures var t := Asking().(served := {0}, file := None, procs := [Looking(0), Refused(OwnAsk(1)), Unborn]);
            Leads(s, LetGo(0)) == To([], t) && WellFormed(t)
  {
    Names();
    LetsGo(s, 0);
    assert StoodFor(s, 0, 1) == {0};
    assert Free(s, 0) == Asking().(served := {0}, file := None, procs := [Looking(0), Refused(OwnAsk(1)), Unborn]);
  }

  lemma FileIsGone(s: State)
    requires WellFormed(s) && s.file == None && s.procs == [Looking(0), Refused(OwnAsk(1)), Unborn]
    requires Leads(Start(3), Begin(0, FIVE[0]) + [WriteAsk(1, FIVE[1])] + [Create(1)] + [Finish(0)] + [Drop(0, false)])
             == To([], s)
    ensures exists t :: Leads(Start(3), TWO_HOLD) == To([], t)
                        && |t.procs| == 3 && Holding(t.procs[1]) && Holding(t.procs[2])
  {
    var ls := Begin(0, FIVE[0]) + [WriteAsk(1, FIVE[1])] + [Create(1)] + [Finish(0)] + [Drop(0, false)];
    var s1 := s.(procs := [Looking(0), Aged(OwnAsk(1), false), Unborn]);
    Step(Start(3), ls, [], s, Stat(1, false), s1);
    var s2 := s.(procs := [Looking(0), Evicting(OwnAsk(1)), Unborn]);
    Step(Start(3), ls + [Stat(1, false)], [], s1, Read(1, false), s2);
    Robs(s2);
  }

  lemma Robs(s: State)
    requires WellFormed(s) && s.file == None && s.procs == [Looking(0), Evicting(OwnAsk(1)), Unborn]
    requires Leads(Start(3), Begin(0, FIVE[0]) + [WriteAsk(1, FIVE[1])] + [Create(1)] + [Finish(0)] + [Drop(0, false)]
                             + [Stat(1, false)] + [Read(1, false)]) == To([], s)
    ensures exists t :: Leads(Start(3), TWO_HOLD) == To([], t)
                        && |t.procs| == 3 && Holding(t.procs[1]) && Holding(t.procs[2])
  {
    var ls := Begin(0, FIVE[0]) + [WriteAsk(1, FIVE[1])] + [Create(1)] + [Finish(0)] + [Drop(0, false)]
              + [Stat(1, false)] + [Read(1, false)];
    var s1 := s.(procs := [Looking(0), Evicting(OwnAsk(1)), Wants(Borrow)]);
    Step(Start(3), ls, [], s, StartBorrow(2), s1);
    var s2 := s1.(procs := [Looking(0), Evicting(OwnAsk(1)), Entered(Borrow)], file := Some(2));
    Step(Start(3), ls + [StartBorrow(2)], [], s1, Create(2), s2);
    Evicts(ls + [StartBorrow(2)] + [Create(2)], s2);
  }

  lemma Evicts(ls: seq<Label>, s: State)
    requires WellFormed(s) && s.file == Some(2) && s.procs == [Looking(0), Evicting(OwnAsk(1)), Entered(Borrow)]
    requires Leads(Start(3), ls) == To([], s)
    ensures exists t :: Leads(Start(3), ls + [Evict(1)] + [Create(1)]) == To([], t)
                        && |t.procs| == 3 && Holding(t.procs[1]) && Holding(t.procs[2])
  {
    var s1 := s.(procs := [Looking(0), Wants(OwnAsk(1)), Entered(Borrow)], file := None);
    Step(Start(3), ls, [], s, Evict(1), s1);
    var s2 := s1.(procs := [Looking(0), Entered(OwnAsk(1)), Entered(Borrow)], file := Some(1));
    Step(Start(3), ls + [Evict(1)], [], s1, Create(1), s2);
  }
}
