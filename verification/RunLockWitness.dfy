/** Concrete runs showing that the exclusions in `RunLockSafety` are needed. */
module RunLockWitness {
  import opened Basics
  import opened RunLock
  import opened RunLockSafety

  function Start(n: nat): State {
    State([], {}, None, seq(n, _ => Unborn), seq(n, _ => 0), {}, {}, {}, {})
  }

  // ---- Runs put together from parts. ----

  /** Where a run leads, and its steps by which somebody leaves without looking;
      nowhere if some step of it is not enabled. */
  ghost function Leads(s: State, ls: seq<Label>): Option<(seq<Label>, State)> {
    if ValidRun(s, ls) then Some((Exits(s, ls), Final(s, ls))) else None
  }

  ghost function To(exits: seq<Label>, t: State): Option<(seq<Label>, State)> {
    Some((exits, t))
  }

  lemma One(s: State, l: Label, t: State)
    requires WellFormed(s) && Enabled(s, l) && Next(s, l) == t
    ensures Leads(s, [l]) == To(if LeavesWithoutLooking(s, l) then [l] else [], t)
  {
    assert [l][1..] == [] && ValidRun(t, []);
    assert ValidRun(s, [l]) && Final(s, [l]) == t;
    assert Exits(s, [l]) == if LeavesWithoutLooking(s, l) then [l] else [];
  }

  lemma First(s: State, l: Label, ls: seq<Label>, x: seq<Label>, t: State)
    requires WellFormed(s) && Enabled(s, l) && Leads(Next(s, l), ls) == To(x, t)
    ensures Leads(s, [l] + ls) == To((if LeavesWithoutLooking(s, l) then [l] else []) + x, t)
  {
    assert ([l] + ls)[1..] == ls;
  }

  lemma {:induction false} Then(s: State, a: seq<Label>, x: seq<Label>, t: State,
                                b: seq<Label>, y: seq<Label>, u: State)
    requires Leads(s, a) == To(x, t) && Leads(t, b) == To(y, u)
    ensures Leads(s, a + b) == To(x + y, u)
    decreases |a|
  {
    if a == [] {
      assert a + b == b && x + y == y;
    } else {
      var head := if LeavesWithoutLooking(s, a[0]) then [a[0]] else [];
      var rest := Exits(Next(s, a[0]), a[1..]);
      Then(Next(s, a[0]), a[1..], rest, t, b, y, u);
      First(s, a[0], a[1..] + b, rest + y, u);
      assert a == [a[0]] + a[1..];
      Associate([a[0]], a[1..], b);
      Associate(head, rest, y);
    }
  }

  /** A run followed by a part in which everybody looks. */
  lemma AndThen(s: State, a: seq<Label>, x: seq<Label>, t: State, b: seq<Label>, u: State)
    requires Leads(s, a) == To(x, t) && Leads(t, b) == To([], u)
    ensures Leads(s, a + b) == To(x, u)
  {
    Then(s, a, x, t, b, [], u);
    assert x + [] == x;
  }

  /** One more step, by which somebody looks. */
  lemma Step(s: State, a: seq<Label>, x: seq<Label>, t: State, l: Label, u: State)
    requires Leads(s, a) == To(x, t) && WellFormed(t) && Enabled(t, l) && Next(t, l) == u && !LeavesWithoutLooking(t, l)
    ensures Leads(s, a + [l]) == To(x, u)
  {
    One(t, l, u);
    AndThen(s, a, x, t, [l], u);
  }

  /** One more step, by which somebody does not. */
  lemma Exit(s: State, a: seq<Label>, x: seq<Label>, t: State, l: Label, u: State)
    requires Leads(s, a) == To(x, t) && WellFormed(t) && Enabled(t, l) && Next(t, l) == u && LeavesWithoutLooking(t, l)
    ensures Leads(s, a + [l]) == To(x + [l], u)
  {
    One(t, l, u);
    Then(s, a, x, t, [l], [l], u);
  }

  lemma Nothing(s: State)
    ensures Leads(s, []) == To([], s)
  {
  }

  function Told(session: string): Ask {
    Ask(Some(session), false, false, "/work")
  }

  predicate NewWork(s: State, ask: Ask) {
    forall a :: 0 <= a < |s.asks| ==> !SameWork(s.asks[a], ask) && !SameWork(ask, s.asks[a])
  }

  /** An invocation writes its ask and sets to work on it. */
  function Begin(p: nat, ask: Ask): seq<Label> {
    [] + [WriteAsk(p, ask)] + [Create(p)] + [Consume(p)]
  }

  function SetToWork(s: State, p: nat, ask: Ask): State
    requires s.Has(p) && |s.runs| == |s.procs|
  {
    s.(asks := s.asks + [ask], file := Some(p),
       procs := s.procs[p := Working(Serve(|s.asks|), |s.asks| + 1, 0)], runs := s.runs[p := s.runs[p] + 1])
  }

  lemma Begins(s: State, p: nat, ask: Ask)
    requires WellFormed(s) && s.Has(p) && s.procs[p].Unborn? && s.file.None? && NewWork(s, ask)
    ensures Leads(s, Begin(p, ask)) == To([], SetToWork(s, p, ask)) && WellFormed(SetToWork(s, p, ask))
  {
    var id := |s.asks|;
    var s1 := s.(asks := s.asks + [ask], open := s.open + {id}, procs := s.procs[p := Wants(OwnAsk(id))]);
    var s2 := s1.(file := Some(p), procs := s.procs[p := Entered(OwnAsk(id))]);
    Nothing(s);
    Step(s, [], [], s, WriteAsk(p, ask), s1);
    assert s1.procs[p := Entered(OwnAsk(id))] == s2.procs;
    Step(s, [] + [WriteAsk(p, ask)], [], s1, Create(p), s2);
    assert TakenWith(s2, id) == {id};
    assert s2.open - {id} == s.open;
    assert s2.procs[p := Working(Serve(id), id + 1, 0)] == SetToWork(s, p, ask).procs;
    Step(s, [] + [WriteAsk(p, ask)] + [Create(p)], [], s2, Consume(p), SetToWork(s, p, ask));
  }

  /** An invocation writes its ask, meets a live holder and stands aside. */
  function Meet(p: nat, ask: Ask): seq<Label> {
    [] + [WriteAsk(p, ask)] + [Create(p)] + [Stat(p, false)] + [Read(p, false)]
  }

  function Met(s: State, p: nat, ask: Ask): State
    requires s.Has(p)
  {
    s.(asks := s.asks + [ask], open := s.open + {|s.asks|}, procs := s.procs[p := Ended])
  }

  predicate HeldAgainst(s: State, p: nat) {
    s.Has(p) && s.file.Some? && s.Has(s.file.value) && s.file.value != p && Active(s.procs[s.file.value])
  }

  lemma Meets(s: State, p: nat, ask: Ask)
    requires WellFormed(s) && HeldAgainst(s, p) && s.procs[p].Unborn?
    ensures Leads(s, Meet(p, ask)) == To([], Met(s, p, ask)) && WellFormed(Met(s, p, ask))
  {
    var id := |s.asks|;
    var s1 := s.(asks := s.asks + [ask], open := s.open + {id}, procs := s.procs[p := Wants(OwnAsk(id))]);
    var s2 := s1.(procs := s.procs[p := Refused(OwnAsk(id))]);
    Nothing(s);
    Step(s, [], [], s, WriteAsk(p, ask), s1);
    assert s1.procs[p := Refused(OwnAsk(id))] == s2.procs;
    Step(s, [] + [WriteAsk(p, ask)], [], s1, Create(p), s2);
    Aside(s2, p);
    AndThen(s, [] + [WriteAsk(p, ask)] + [Create(p)], [], s2, [] + [Stat(p, false)] + [Read(p, false)],
            s2.(procs := s2.procs[p := Ended]));
    assert s2.procs[p := Ended] == Met(s, p, ask).procs;
    assert Meet(p, ask)
        == [] + [WriteAsk(p, ask)] + [Create(p)] + ([] + [Stat(p, false)] + [Read(p, false)]);
  }

  lemma Aside(s: State, p: nat)
    requires WellFormed(s) && HeldAgainst(s, p) && s.procs[p].Refused?
    ensures Leads(s, [] + [Stat(p, false)] + [Read(p, false)]) == To([], s.(procs := s.procs[p := Ended]))
  {
    var s1 := s.(procs := s.procs[p := Aged(s.procs[p].goal, true)]);
    Nothing(s);
    Step(s, [], [], s, Stat(p, false), s1);
    assert s1.procs[p := Ended] == s.procs[p := Ended];
    Step(s, [] + [Stat(p, false)], [], s1, Read(p, false), s.(procs := s.procs[p := Ended]));
  }

  /** The holder finishes its ask and lets go, about to look. */
  function LetGo(p: nat): seq<Label> {
    [] + [Finish(p)] + [Drop(p, false)]
  }

  function Free(s: State, p: nat): State
    requires WellFormed(s) && s.Has(p) && s.procs[p].Working? && s.procs[p].job.Serve?
  {
    var pc := s.procs[p];
    s.(file := None, procs := s.procs[p := Looking(pc.drained)], served := s.served + StoodFor(s, pc.job.id, pc.upto))
  }

  lemma LetsGo(s: State, p: nat)
    requires WellFormed(s) && s.Has(p) && s.procs[p].Working? && s.procs[p].job.Serve?
    requires s.procs[p].drained < MAX_DRAIN_ROUNDS
    ensures Leads(s, LetGo(p)) == To([], Free(s, p)) && WellFormed(Free(s, p))
  {
    var pc := s.procs[p];
    var s1 := s.(procs := s.procs[p := Passing(pc.drained)], served := s.served + StoodFor(s, pc.job.id, pc.upto));
    Nothing(s);
    Step(s, [], [], s, Finish(p), s1);
    assert s1.procs[p := Looking(pc.drained)] == Free(s, p).procs;
    Step(s, [] + [Finish(p)], [], s1, Drop(p, false), Free(s, p));
  }

  /** It looks too: an ask is open. */
  function Pass(p: nat, next: nat): seq<Label> {
    LetGo(p) + [Look(p, Some(next))]
  }

  function Passed(s: State, p: nat, next: nat): State
    requires WellFormed(s) && s.Has(p) && s.procs[p].Working? && s.procs[p].job.Serve?
  {
    var pc := s.procs[p];
    Free(s, p).(procs := s.procs[p := Wants(NextAsk(next, pc.drained))])
  }

  lemma Passes(s: State, p: nat, next: nat)
    requires WellFormed(s) && s.Has(p) && s.procs[p].Working? && s.procs[p].job.Serve?
    requires s.procs[p].drained < MAX_DRAIN_ROUNDS && IsOldest(s.open, next)
    ensures Leads(s, Pass(p, next)) == To([], Passed(s, p, next)) && WellFormed(Passed(s, p, next))
  {
    LetsGo(s, p);
    assert Free(s, p).procs[p := Wants(NextAsk(next, s.procs[p].drained))] == Passed(s, p, next).procs;
    Step(s, LetGo(p), [], Free(s, p), Look(p, Some(next)), Passed(s, p, next));
  }

  /** Takes the lock back and the open ask with it. */
  function Resume(p: nat): seq<Label> {
    [] + [Create(p)] + [Consume(p)]
  }

  function Resumed(s: State, p: nat): State
    requires s.Has(p) && |s.runs| == |s.procs| && s.procs[p].Wants? && s.procs[p].goal.NextAsk?
  {
    var goal := s.procs[p].goal;
    s.(file := Some(p), procs := s.procs[p := Working(Serve(goal.next), |s.asks|, goal.drained + 1)],
       open := s.open - {goal.next}, runs := s.runs[p := s.runs[p] + 1])
  }

  lemma Resumes(s: State, p: nat)
    requires WellFormed(s) && s.Has(p) && s.procs[p].Wants? && s.procs[p].goal.NextAsk? && s.file.None?
    requires s.procs[p].goal.next in s.open
    requires forall a :: a in s.open && SameWork(s.asks[a], s.asks[s.procs[p].goal.next]) ==> a == s.procs[p].goal.next
    ensures Leads(s, Resume(p)) == To([], Resumed(s, p)) && WellFormed(Resumed(s, p))
  {
    var goal := s.procs[p].goal;
    var s1 := s.(file := Some(p), procs := s.procs[p := Entered(goal)]);
    Nothing(s);
    Step(s, [], [], s, Create(p), s1);
    assert TakenWith(s1, goal.next) == {goal.next};
    assert s1.procs[p := Working(Serve(goal.next), |s.asks|, goal.drained + 1)] == Resumed(s, p).procs;
    Step(s, [] + [Create(p)], [], s1, Consume(p), Resumed(s, p));
  }

  // ---- Exits after which an ask stays open. ----

  /** Nobody is under way any more, and this ask is open and was never done. */
  predicate LeftOpen(s: State, a: nat) {
    && (forall p :: 0 <= p < |s.procs| ==> !Active(s.procs[p]))
    && a < |s.asks| && a in s.open && !Done(s, a)
  }

  const A: Ask := Told("a")
  const B: Ask := Told("b")

  /** Invocation 0 works on its ask; invocation 1 met the lock. */
  const ASIDE: seq<Label> := Begin(0, A) + Meet(1, B)

  function OneAside(): State {
    State([A, B], {1}, Some(0), [Working(Serve(0), 1, 0), Ended], [1, 0], {}, {}, {}, {})
  }

  lemma OneStandsAside()
    ensures Leads(Start(2), ASIDE) == To([], OneAside()) && WellFormed(OneAside())
  {
    var s0 := Start(2);
    Begins(s0, 0, A);
    var s1 := SetToWork(s0, 0, A);
    Meets(s1, 1, B);
    AndThen(s0, Begin(0, A), [], s1, Meet(1, B), Met(s1, 1, B));
    assert Met(s1, 1, B).asks == [A, B] && Met(s1, 1, B).open == {1};
    assert Met(s1, 1, B).procs == [Working(Serve(0), 1, 0), Ended] && Met(s1, 1, B).runs == [1, 0];
  }

  const OWN_ERROR: seq<Label> := ASIDE + [Abort(0)] + [Drop(0, false)]

  /** The holder's own ask fails. */
  lemma OwnErrorLosesAsk()
    ensures exists t :: Leads(Start(2), OWN_ERROR) == To([Abort(0), Drop(0, false)], t) && LeftOpen(t, 1)
  {
    OneStandsAside();
    assert Undone(OneAside()) == {0, 1} && StoodFor(OneAside(), 0, 1) == {0};
    var s1 := OneAside().(procs := [Quitting, Ended], failed := {0}, excused := {0, 1});
    Exit(Start(2), ASIDE, [], OneAside(), Abort(0), s1);
    assert [] + [Abort(0)] == [Abort(0)];
    Quits(ASIDE + [Abort(0)], [Abort(0)], s1);
    assert [Abort(0)] + [Drop(0, false)] == [Abort(0), Drop(0, false)];
  }

  const UNFINISHED: seq<Label> := ASIDE + [Unfinished(0)] + [Drop(0, false)]

  /** The holder hands its ask back unfinished. */
  lemma UnfinishedLosesAsk()
    ensures exists t :: Leads(Start(2), UNFINISHED) == To([Unfinished(0), Drop(0, false)], t) && LeftOpen(t, 1)
  {
    OneStandsAside();
    var s1 := OneAside().(procs := [Quitting, Ended], open := {0, 1});
    Exit(Start(2), ASIDE, [], OneAside(), Unfinished(0), s1);
    assert [] + [Unfinished(0)] == [Unfinished(0)];
    Quits(ASIDE + [Unfinished(0)], [Unfinished(0)], s1);
    assert [Unfinished(0)] + [Drop(0, false)] == [Unfinished(0), Drop(0, false)];
  }

  lemma Quits(ls: seq<Label>, exits: seq<Label>, s: State)
    requires Leads(Start(2), ls) == To(exits, s) && WellFormed(s) && s.procs == [Quitting, Ended]
    requires s.asks == [A, B] && 1 in s.open && !Done(s, 1)
    ensures exists t :: Leads(Start(2), ls + [Drop(0, false)]) == To(exits + [Drop(0, false)], t) && LeftOpen(t, 1)
  {
    var t := s.(procs := [Ended, Ended], file := None, excused := s.excused + Undone(s));
    Exit(Start(2), ls, exits, s, Drop(0, false), t);
    assert LeftOpen(t, 1);
  }

  const TIME_UP: seq<Label> := ASIDE + [Finish(0)] + [Drop(0, true)]

  /** The holder finishes with its time spent. */
  lemma TimeLimitLosesAsk()
    ensures exists t :: Leads(Start(2), TIME_UP) == To([Drop(0, true)], t) && LeftOpen(t, 1)
  {
    OneStandsAside();
    assert StoodFor(OneAside(), 0, 1) == {0};
    var s1 := OneAside().(procs := [Passing(0), Ended], served := {0});
    Step(Start(2), ASIDE, [], OneAside(), Finish(0), s1);
    var s2 := s1.(procs := [Ended, Ended], file := None, excused := Undone(s1));
    Exit(Start(2), ASIDE + [Finish(0)], [], s1, Drop(0, true), s2);
    assert [] + [Drop(0, true)] == [Drop(0, true)];
    assert LeftOpen(s2, 1);
  }

  const KILLED: seq<Label> := ASIDE + [Crash(0)]

  /** The holder is killed. */
  lemma KillLosesAsk()
    ensures exists t :: Leads(Start(2), KILLED) == To([Crash(0)], t) && LeftOpen(t, 1)
  {
    OneStandsAside();
    assert StoodFor(OneAside(), 0, 1) == {0};
    var s1 := OneAside().(procs := [Dead, Ended], failed := {0}, excused := Undone(OneAside()));
    Exit(Start(2), ASIDE, [], OneAside(), Crash(0), s1);
    assert [] + [Crash(0)] == [Crash(0)];
    assert LeftOpen(s1, 1);
  }

  const BORROWED: seq<Label> :=
    [] + [StartBorrow(0)] + [Create(0)] + Meet(1, A) + [Return(0)] + [Drop(0, false)]

  /** The holder borrowed the lock - a reading of a document, a compaction, a
      restore - and has no ask of its own: it never executes one, nor looks. */
  lemma BorrowerLosesAsk()
    ensures exists t :: Leads(Start(2), BORROWED) == To([Drop(0, false)], t)
                        && LeftOpen(t, 0) && t.runs == [0, 0]
  {
    var s0 := Start(2);
    var s1 := s0.(procs := [Wants(Borrow), Unborn]);
    var s2 := s1.(procs := [Entered(Borrow), Unborn], file := Some(0));
    Nothing(s0);
    Step(s0, [], [], s0, StartBorrow(0), s1);
    Step(s0, [] + [StartBorrow(0)], [], s1, Create(0), s2);
    Meets(s2, 1, A);
    AndThen(s0, [] + [StartBorrow(0)] + [Create(0)], [], s2, Meet(1, A), Met(s2, 1, A));
    BorrowerLeaves(Met(s2, 1, A));
  }

  lemma BorrowerLeaves(s: State)
    requires Leads(Start(2), [] + [StartBorrow(0)] + [Create(0)] + Meet(1, A)) == To([], s) && WellFormed(s)
    requires s.procs == [Entered(Borrow), Ended] && s.asks == [A] && s.open == {0} && s.runs == [0, 0] && !Done(s, 0)
    ensures exists t :: Leads(Start(2), BORROWED) == To([Drop(0, false)], t)
                        && LeftOpen(t, 0) && t.runs == [0, 0]
  {
    var ls := [] + [StartBorrow(0)] + [Create(0)] + Meet(1, A);
    var s1 := s.(procs := [Quitting, Ended]);
    Step(Start(2), ls, [], s, Return(0), s1);
    var s2 := s1.(procs := [Ended, Ended], file := None, excused := s1.excused + Undone(s1));
    Exit(Start(2), ls + [Return(0)], [], s1, Drop(0, false), s2);
    assert [] + [Drop(0, false)] == [Drop(0, false)];
    assert LeftOpen(s2, 0);
  }
}
