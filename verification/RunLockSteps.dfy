/** What the steps of an invocation do to the asks and to the lock file, field by field. */
module RunLockSteps {
  import opened Basics
  import opened RunLock

  /** Same session, same flags; the same directory too, unless it covers every
      project. */
  predicate IsTwin(a: Ask, b: Ask) {
    && a.session == b.session && a.all == b.all && a.force == b.force
    && (a.all || b.all || a.cwd == b.cwd)
  }

  /** The row an invocation that holds the lock is about to take. */
  function Wanted(pc: Pc): Option<nat> {
    if !pc.Entered? then None
    else if pc.goal.OwnAsk? then Some(pc.goal.own)
    else if pc.goal.NextAsk? then Some(pc.goal.next)
    else None
  }

  /** The step takes this open row: it takes the row it wants, found open, and with
      it every open twin. */
  predicate Takes(s: State, l: Label, a: nat)
    requires WellFormed(s) && Enabled(s, l)
  {
    && l.Consume? && a in s.open
    && var id := Wanted(s.procs[l.p]);
       id.Some? && id.value in s.open && (a == id.value || IsTwin(s.asks[a], s.asks[id.value]))
  }

  /** The step deletes this open row: without force it names a session in which
      nothing is pending. */
  predicate Deletes(s: State, l: Label, a: nat)
    requires WellFormed(s) && Enabled(s, l)
  {
    && l.DropStale? && a in s.open
    && s.asks[a].session.Some? && s.asks[a].session.value in l.idle && !s.asks[a].force
  }

  /** The step opens this row: it writes it, or hands it back unfinished. */
  predicate Opens(s: State, l: Label, a: nat)
    requires WellFormed(s) && Enabled(s, l)
  {
    || (l.WriteAsk? && a == |s.asks|)
    || (l.Unfinished? && s.procs[l.p] == Working(Serve(a), s.procs[l.p].upto, s.procs[l.p].drained))
  }

  /** Which rows are open after a step: those it opens, and those that were and that
      it neither takes nor deletes. */
  lemma OpenIff(s: State, l: Label, a: nat)
    requires WellFormed(s) && Enabled(s, l)
    ensures a in Next(s, l).open <==> Opens(s, l, a) || (a in s.open && !Takes(s, l, a) && !Deletes(s, l, a))
  {
  }

  lemma AsksAre(s: State, l: Label)
    requires WellFormed(s) && Enabled(s, l)
    ensures Next(s, l).asks == s.asks + (if l.WriteAsk? then [l.ask] else [])
  {
  }

  /** The invocation is executing an ask that stands for this one: its twin, written
      before the execution began. */
  predicate InExecution(s: State, p: nat, a: nat)
    requires WellFormed(s) && p < |s.procs|
  {
    var pc := s.procs[p];
    pc.Working? && pc.job.Serve? && a < pc.upto && a < |s.asks| && IsTwin(s.asks[a], s.asks[pc.job.id])
  }

  /** An ask is done only by an execution that stands for it coming to its end;
      deleted only as an open row, or as the twin of one; and failed only by an error
      or a kill in such an execution. */
  lemma HistoryIff(s: State, l: Label, a: nat)
    requires WellFormed(s) && Enabled(s, l)
    ensures a in Next(s, l).served <==> a in s.served || (l.Finish? && InExecution(s, l.p, a))
    ensures a in Next(s, l).needless <==>
              || a in s.needless
              || (a < |s.asks| && exists g :: g in s.open && Deletes(s, l, g) && IsTwin(s.asks[a], s.asks[g]))
    ensures a in Next(s, l).failed <==> a in s.failed || ((l.Abort? || l.Crash?) && InExecution(s, l.p, a))
  {
  }

  /** The lock file after a step: an attempt that finds none makes it, a holder at
      work rewrites it, an eviction and a letting go remove it, whosever it is. */
  lemma FileIs(s: State, l: Label)
    requires WellFormed(s) && Enabled(s, l)
    ensures Next(s, l).file ==
            if l.Touch? || (l.Create? && s.file.None?) then Some(l.p)
            else if l.Evict? || l.Drop? then None
            else s.file
  {
  }

  /** Whoever tries the lock enters exactly when no file is there. */
  lemma EntersIff(s: State, l: Label)
    requires WellFormed(s) && Enabled(s, l) && l.Create?
    ensures var goal := s.procs[l.p].goal;
            Next(s, l).procs[l.p] == if s.file.None? then Entered(goal) else Refused(goal)
  {
  }

  /** One that was refused stands aside exactly when it takes the holder to be alive:
      by its process, and where that cannot be asked by the age the file had. */
  lemma StandsAsideIff(s: State, l: Label)
    requires WellFormed(s) && Enabled(s, l) && l.Read?
    ensures var pc := s.procs[l.p];
            var holderRuns :=
              s.file.Some? && !s.procs[s.file.value].Dead? && !s.procs[s.file.value].Ended?
              && !s.procs[s.file.value].Unborn?;
            var alive := if l.unknown || s.file.None? then pc.recent else holderRuns;
            Next(s, l).procs[l.p] == if alive then Ended else Evicting(pc.goal)
  {
  }

  lemma AgeIs(s: State, l: Label)
    requires WellFormed(s) && Enabled(s, l) && l.Stat?
    ensures Next(s, l).procs[l.p] == Aged(s.procs[l.p].goal, s.file.Some? && !l.stale)
  {
  }

  /** A holder that takes its row works on it; one that finds its own ask taken quits,
      and one that finds a drained ask taken looks again. */
  lemma ConsumesIff(s: State, l: Label)
    requires WellFormed(s) && Enabled(s, l) && l.Consume?
    ensures var goal, pc' := s.procs[l.p].goal, Next(s, l).procs[l.p];
            var id := if goal.OwnAsk? then goal.own else goal.next;
            if id in s.open then
              pc' == Working(Serve(id), |s.asks|, if goal.OwnAsk? then 0 else goal.drained + 1)
            else pc' == if goal.OwnAsk? then Quitting else Retrying(goal.drained)
  {
  }

  /** Whoever sets to work, on an ask or on a sweep, is counted, and by one. */
  lemma RunsCount(s: State, l: Label, p: nat)
    requires WellFormed(s) && Enabled(s, l) && p < |s.procs|
    ensures p < |Next(s, l).runs| && p < |Next(s, l).procs|
    ensures Next(s, l).runs[p] ==
            s.runs[p] + (if Next(s, l).procs[p].Working? && !s.procs[p].Working? then 1 else 0)
  {
  }

  /** It goes on to the oldest open ask, if there is any. */
  lemma LooksFor(s: State, l: Label)
    requires WellFormed(s) && Enabled(s, l) && l.Look?
    ensures var drained, pc' := s.procs[l.p].drained, Next(s, l).procs[l.p];
            if s.open == {} then pc' == Ended
            else pc'.Wants? && pc'.goal.NextAsk? && pc'.goal.drained == drained
                 && pc'.goal.next in s.open && forall a :: a in s.open ==> pc'.goal.next <= a
  {
  }

  /** The other steps.  A finished ask leaves its holder free to look, in the same
      round; one handed back, or a borrowed lock given up, does not; a failure keeps
      whoever holds the lock only until it lets go; and who evicted tries again. */
  lemma GoesOnTo(s: State, l: Label)
    requires WellFormed(s) && Enabled(s, l)
    ensures var pc, pc' := s.procs[l.p], Next(s, l).procs[l.p];
            match l
            case WriteAsk(_, _) => pc' == Wants(OwnAsk(|s.asks|))
            case StartSweep(_) => pc' == Wants(IdleSweep)
            case StartBorrow(_) => pc' == Wants(Borrow)
            case Evict(_) => pc' == Wants(pc.goal)
            case BeginSweep(_) => pc' == Working(Sweep, |s.asks|, 0)
            case Finish(_) => pc' == Passing(pc.drained)
            case Unfinished(_) => pc' == Quitting
            case Return(_) => pc' == Quitting
            case Abort(_) => pc' == if pc.Entered? || pc.Working? || pc.Quitting? || pc.Passing? || pc.Retrying?
                                    then Quitting else Ended
            case Crash(_) => pc' == Dead
            case Touch(_) => pc' == pc
            case DropStale(_, _) => pc' == pc
            case _ => true
  {
  }

  // ---- Nobody is stuck. ----

  /** A set of rows that is not empty has an oldest. */
  lemma {:induction false} SomeOldest(open: set<nat>) returns (id: nat)
    requires open != {}
    ensures IsOldest(open, id)
    decreases |open|
  {
    var a :| a in open;
    if open == {a} {
      id := a;
    } else {
      var rest := SomeOldest(open - {a});
      id := if a < rest then a else rest;
      forall other | other in open
        ensures id <= other
      {
        assert other == a || other in open - {a};
      }
    }
  }

  /** Every invocation under way has a next step that is no error and no kill,
      whatever the others do. */
  lemma NeverStuck(s: State, p: nat)
    requires WellFormed(s) && p < |s.procs| && Active(s.procs[p])
    ensures exists l :: Enabled(s, l) && l.p == p && !l.Abort? && !l.Crash?
  {
    match s.procs[p]
    case Wants(_) => assert Enabled(s, Create(p));
    case Refused(_) => assert Enabled(s, Stat(p, false));
    case Aged(_, _) => assert Enabled(s, Read(p, false));
    case Evicting(_) => assert Enabled(s, Evict(p));
    case Entered(goal) =>
      assert Enabled(s, if goal.IdleSweep? then BeginSweep(p) else if goal.Borrow? then Return(p) else Consume(p));
    case Working(_, _, _) => assert Enabled(s, Finish(p));
    case Quitting => assert Enabled(s, Drop(p, false));
    case Passing(_) => assert Enabled(s, Drop(p, false));
    case Retrying(_) => assert Enabled(s, Drop(p, false));
    case Looking(_) =>
      if s.open == {} {
        assert Enabled(s, Look(p, None));
      } else {
        var id := SomeOldest(s.open);
        assert Enabled(s, Look(p, Some(id)));
      }
  }

  /** A holder deletes stale asks while it does its own, and in no later round; it
      hands an ask back only while it works on it. */
  lemma HealsIff(s: State, p: nat, idle: set<string>)
    requires p < |s.procs|
    ensures Enabled(s, DropStale(p, idle)) <==> s.procs[p].Working? && s.procs[p].drained == 0
    ensures Enabled(s, Unfinished(p)) <==> s.procs[p].Working?
  {
  }
}
