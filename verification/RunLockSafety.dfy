/** What every interleaving of the run-lock protocol keeps. */
module RunLockSafety {
  import opened Basics
  import opened RunLock

  /** A finite run: the labels are taken in order, each where it is enabled. */
  ghost predicate ValidRun(s: State, ls: seq<Label>)
    decreases |ls|
  {
    ls == [] || (WellFormed(s) && Enabled(s, ls[0]) && ValidRun(Next(s, ls[0]), ls[1..]))
  }

  ghost function Final(s: State, ls: seq<Label>): State
    requires ValidRun(s, ls)
    decreases |ls|
  {
    if ls == [] then s else Final(Next(s, ls[0]), ls[1..])
  }

  /** The lock file belongs to whoever holds the lock, or to someone killed. */
  predicate FileOwned(s: State)
    requires WellFormed(s)
  {
    s.file.Some? ==> Holding(s.procs[s.file.value]) || s.procs[s.file.value].Dead?
  }

  /** An ask in execution is taken, and by one invocation. */
  predicate JobsTaken(s: State) {
    && (forall p :: 0 <= p < |s.procs| && s.procs[p].Working? && s.procs[p].job.Serve? ==>
          s.procs[p].job.id !in s.open)
    && (forall p, q :: 0 <= p < q < |s.procs| && s.procs[p].Working? && s.procs[q].Working? ==>
          s.procs[p].job.Sweep? || s.procs[p].job != s.procs[q].job)
  }

  predicate ForNext(pc: Pc) {
    (pc.Wants? || pc.Refused? || pc.Aged? || pc.Evicting? || pc.Entered?) && pc.goal.NextAsk?
  }

  /** Executions an invocation may have begun by the time it stands at `pc`. */
  function Begun(pc: Pc): nat {
    if pc.Working? || pc.Passing? || pc.Retrying? || pc.Looking? then pc.drained + 1
    else if ForNext(pc) then pc.goal.drained + 1
    else if pc.Quitting? || pc.Ended? || pc.Dead? then MAX_DRAIN_ROUNDS + 1
    else 0
  }

  /** Someone who may still take an ask has room for one more. */
  predicate HasRoom(pc: Pc) {
    && (pc.Working? || pc.Passing? ==> pc.drained <= MAX_DRAIN_ROUNDS)
    && (pc.Retrying? || pc.Looking? ==> pc.drained < MAX_DRAIN_ROUNDS)
    && (ForNext(pc) ==> pc.goal.drained < MAX_DRAIN_ROUNDS)
  }

  predicate Bounded(s: State)
    requires WellFormed(s)
  {
    forall p :: 0 <= p < |s.procs| ==> HasRoom(s.procs[p]) && s.runs[p] <= Begun(s.procs[p])
  }

  /** Every undone ask is open, or stood for by an open ask that is the same
      work, or by an execution begun after it was written - or was in the hands
      of an execution that failed. */
  predicate Represented(s: State, a: nat)
    requires WellFormed(s) && a < |s.asks|
  {
    || Done(s, a)
    || a in s.failed
    || (exists b :: b in s.open && SameWork(s.asks[a], s.asks[b]))
    || (exists p :: 0 <= p < |s.procs| && Executes(s, p, a))
  }

  predicate Executes(s: State, p: nat, a: nat)
    requires WellFormed(s) && p < |s.procs| && a < |s.asks|
  {
    s.procs[p].Working? && s.procs[p].job.Serve? && a < s.procs[p].upto
    && SameWork(s.asks[a], s.asks[s.procs[p].job.id])
  }

  predicate Covered(s: State)
    requires WellFormed(s)
  {
    forall a :: 0 <= a < |s.asks| ==> Represented(s, a)
  }

  /** An invocation that will look again, or meets a live holder that will.
      One that has seen a recent file is only firm while that file is a killed
      invocation's: it may trust the file's age and stand aside. */
  predicate Firm(s: State, p: nat)
    requires WellFormed(s) && p < |s.procs|
  {
    Active(s.procs[p]) && (s.procs[p].Aged? && s.procs[p].recent ==> DeadFile(s))
  }

  predicate SomeoneFirm(s: State)
    requires WellFormed(s)
  {
    (exists a :: a in Undone(s) && a !in s.excused) ==> exists p :: 0 <= p < |s.procs| && Firm(s, p)
  }

  /** An ask whose execution failed was executed or needless before, or undone
      when the failure came. */
  predicate FailuresKnown(s: State) {
    forall a :: a in s.failed ==> Done(s, a) || a in s.excused
  }

  predicate Inv(s: State) {
    && WellFormed(s)
    && FileOwned(s)
    && JobsTaken(s)
    && FailuresKnown(s)
    && Bounded(s)
    && Covered(s)
    && SomeoneFirm(s)
  }

  /** A step moves one invocation. */
  lemma OneMover(s: State, l: Label)
    requires WellFormed(s) && Enabled(s, l)
    ensures Next(s, l).procs == s.procs[l.p := Next(s, l).procs[l.p]]
    ensures |Next(s, l).runs| == |s.runs|
    ensures forall q :: 0 <= q < |s.runs| && q != l.p ==> Next(s, l).runs[q] == s.runs[q]
  {
  }

  /** The table only grows, and so does the history. */
  lemma Grows(s: State, l: Label)
    requires WellFormed(s) && Enabled(s, l)
    ensures s.asks <= Next(s, l).asks
    ensures s.served <= Next(s, l).served && s.needless <= Next(s, l).needless
    ensures s.failed <= Next(s, l).failed && s.excused <= Next(s, l).excused
    ensures forall a :: a in Next(s, l).open ==> a < |Next(s, l).asks|
  {
  }

  lemma JobStep(s: State, l: Label)
    requires WellFormed(s) && Enabled(s, l)
    ensures var s', pc' := Next(s, l), Next(s, l).procs[l.p];
            pc'.Working? && pc'.job.Serve? ==>
              pc'.job.id < |s'.asks| && pc'.upto <= |s'.asks|
  {
  }

  lemma FileStep(s: State, l: Label)
    requires WellFormed(s) && FileOwned(s) && Enabled(s, l)
    ensures var s' := Next(s, l);
            s'.file.Some? ==>
              && s'.Has(s'.file.value)
              && (Holding(s'.procs[s'.file.value]) || s'.procs[s'.file.value].Dead?)
  {
  }

  lemma WellFormedStep(s: State, l: Label)
    requires WellFormed(s) && FileOwned(s) && Enabled(s, l)
    ensures WellFormed(Next(s, l)) && FileOwned(Next(s, l))
  {
    OneMover(s, l);
    Grows(s, l);
    JobStep(s, l);
    FileStep(s, l);
  }

  lemma RoomStep(s: State, l: Label)
    requires WellFormed(s) && Enabled(s, l) && HasRoom(s.procs[l.p])
    ensures HasRoom(Next(s, l).procs[l.p])
  {
  }

  /** What an invocation stands at keeps count of the executions it began. */
  lemma BegunStep(s: State, l: Label)
    requires WellFormed(s) && Enabled(s, l) && HasRoom(s.procs[l.p])
    requires s.runs[l.p] <= Begun(s.procs[l.p])
    ensures |Next(s, l).runs| == |s.runs|
    ensures Next(s, l).runs[l.p] <= Begun(Next(s, l).procs[l.p])
  {
    match l
    case Consume(_) =>
    case BeginSweep(_) =>
    case Drop(_, _) =>
    case Look(_, _) =>
    case _ => NoneBegun(s, l);
  }

  lemma NoneBegun(s: State, l: Label)
    requires WellFormed(s) && Enabled(s, l) && HasRoom(s.procs[l.p])
    requires !l.Consume? && !l.BeginSweep? && !l.Drop? && !l.Look?
    ensures Next(s, l).runs == s.runs
    ensures Begun(Next(s, l).procs[l.p]) >= Begun(s.procs[l.p]) || s.procs[l.p].Unborn?
    ensures s.procs[l.p].Unborn? ==> Begun(s.procs[l.p]) == 0
  {
  }

  lemma BoundedStep(s: State, l: Label)
    requires WellFormed(s) && FileOwned(s) && Bounded(s) && Enabled(s, l)
    ensures WellFormed(Next(s, l)) && Bounded(Next(s, l))
  {
    WellFormedStep(s, l);
    OneMover(s, l);
    RoomStep(s, l);
    BegunStep(s, l);
  }

  lemma FailuresStep(s: State, l: Label)
    requires WellFormed(s) && FailuresKnown(s) && Enabled(s, l)
    ensures FailuresKnown(Next(s, l))
  {
    var s' := Next(s, l);
    Grows(s, l);
    forall a | a in s'.failed
      ensures Done(s', a) || a in s'.excused
    {
      if a !in s.failed {
        assert l.Abort? || l.Crash?;
        assert a in Undone(s) || Done(s, a);
      }
    }
  }

  /** Only `Unfinished` reopens a row, and only the one it was executing. */
  lemma ReopenedOnlyUnfinished(s: State, l: Label, a: nat)
    requires WellFormed(s) && Enabled(s, l) && a < |s.asks|
    requires a !in s.open && a in Next(s, l).open
    ensures l.Unfinished? && s.procs[l.p].Working? && s.procs[l.p].job == Serve(a)
  {
  }

  /** An execution of an ask begins when its invocation, holding the lock,
      takes the open row - with every open row that is the same work. */
  lemma BegunByTaking(s: State, l: Label)
    requires WellFormed(s) && Enabled(s, l)
    requires var pc' := Next(s, l).procs[l.p];
             pc'.Working? && pc'.job.Serve? && !s.procs[l.p].Working?
    ensures var s', id := Next(s, l), Next(s, l).procs[l.p].job.id;
            && s.procs[l.p].Entered?
            && id in s.open
            && s'.procs[l.p].upto == |s.asks|
            && (forall a :: a in s'.open <==> a in s.open && !SameWork(s.asks[a], s.asks[id]))
  {
  }

  lemma JobsTakenStep(s: State, l: Label)
    requires WellFormed(s) && JobsTaken(s) && Enabled(s, l)
    ensures JobsTaken(Next(s, l))
  {
    var s' := Next(s, l);
    OneMover(s, l);
    forall q | 0 <= q < |s'.procs| && s'.procs[q].Working? && s'.procs[q].job.Serve?
      ensures s'.procs[q].job.id !in s'.open
    {
      var id := s'.procs[q].job.id;
      if q == l.p && !s.procs[q].Working? {
        BegunByTaking(s, l);
      } else if id in s'.open {
        assert s.procs[q].job == Serve(id);
        ReopenedOnlyUnfinished(s, l, id);
      }
    }
    if s'.procs[l.p].Working? && s'.procs[l.p].job.Serve? && !s.procs[l.p].Working? {
      BegunByTaking(s, l);
    }
  }

  lemma CoveredStep(s: State, l: Label)
    requires WellFormed(s) && FileOwned(s) && JobsTaken(s) && Covered(s) && Enabled(s, l)
    ensures WellFormed(Next(s, l)) && Covered(Next(s, l))
  {
    WellFormedStep(s, l);
    var s' := Next(s, l);
    forall a | 0 <= a < |s'.asks|
      ensures Represented(s', a)
    {
      if a == |s.asks| {
        assert a in s'.open && SameWork(s'.asks[a], s'.asks[a]);
      } else {
        RepresentedStep(s, l, a);
      }
    }
  }

  lemma RepresentedStep(s: State, l: Label, a: nat)
    requires WellFormed(s) && JobsTaken(s) && Enabled(s, l) && a < |s.asks| && Represented(s, a)
    requires WellFormed(Next(s, l))
    ensures Represented(Next(s, l), a)
  {
    var s' := Next(s, l);
    Grows(s, l);
    OneMover(s, l);
    if !Done(s', a) && a !in s'.failed {
      if b :| b in s.open && SameWork(s.asks[a], s.asks[b]) {
        OpenAskStep(s, l, a, b);
      } else {
        var p :| 0 <= p < |s.procs| && Executes(s, p, a);
        if p == l.p {
          ExecutionStep(s, l, a);
        } else {
          assert Executes(s', p, a);
        }
      }
    }
  }

  lemma OpenAskStep(s: State, l: Label, a: nat, b: nat)
    requires WellFormed(s) && Enabled(s, l) && a < |s.asks| && WellFormed(Next(s, l))
    requires b in s.open && SameWork(s.asks[a], s.asks[b])
    requires !Done(Next(s, l), a) && a !in Next(s, l).failed
    ensures Represented(Next(s, l), a)
  {
    var s' := Next(s, l);
    Grows(s, l);
    if b in s'.open {
      assert SameWork(s'.asks[a], s'.asks[b]);
    } else {
      assert l.Consume? ==> Executes(s', l.p, a);
    }
  }

  lemma ExecutionStep(s: State, l: Label, a: nat)
    requires WellFormed(s) && Enabled(s, l) && a < |s.asks| && WellFormed(Next(s, l))
    requires Executes(s, l.p, a)
    requires !Done(Next(s, l), a) && a !in Next(s, l).failed
    ensures Represented(Next(s, l), a)
  {
    var s', id := Next(s, l), s.procs[l.p].job.id;
    Grows(s, l);
    if l.Unfinished? {
      assert id in s'.open && SameWork(s'.asks[a], s'.asks[id]);
    } else {
      assert Executes(s', l.p, a);
    }
  }

  lemma FirmStep(s: State, l: Label)
    requires WellFormed(s) && FileOwned(s) && FailuresKnown(s) && Covered(s) && SomeoneFirm(s) && Enabled(s, l)
    ensures WellFormed(Next(s, l)) && SomeoneFirm(Next(s, l))
  {
    var s' := Next(s, l);
    WellFormedStep(s, l);
    OneMover(s, l);
    Grows(s, l);
    if a :| a in Undone(s') && a !in s'.excused {
      if a == |s.asks| {
        assert Firm(s', l.p);
      } else {
        assert a in Undone(s) && a !in s.excused;
        var q :| 0 <= q < |s.procs| && Firm(s, q);
        if q == l.p {
          if !Firm(s', l.p) {
            StandsAside(s, l, a);
          }
        } else if !Firm(s', q) {
          RemoverIsFirm(s, l, q, a);
        }
      }
    }
  }

  /** The file an invocation trusted was a killed one's and is gone: while an ask
      is undone, whoever removed it is firm. */
  lemma RemoverIsFirm(s: State, l: Label, q: nat, a: nat)
    requires WellFormed(s) && Enabled(s, l) && WellFormed(Next(s, l))
    requires q < |s.procs| && q != l.p && Firm(s, q) && !Firm(Next(s, l), q)
    requires a < |s.asks| && !Done(Next(s, l), a) && a !in Next(s, l).excused
    ensures Firm(Next(s, l), l.p)
  {
    OneMover(s, l);
    assert Next(s, l).procs[q] == s.procs[q];
    assert !DeadFile(Next(s, l)) && DeadFile(s);
  }

  /** The one moving stops being firm only when another is. */
  lemma StandsAside(s: State, l: Label, a: nat)
    requires WellFormed(s) && FileOwned(s) && FailuresKnown(s) && Covered(s) && Enabled(s, l)
    requires WellFormed(Next(s, l)) && Firm(s, l.p) && !Firm(Next(s, l), l.p)
    requires a < |s.asks| && !Done(Next(s, l), a) && a !in Next(s, l).excused
    ensures exists q :: 0 <= q < |s.procs| && Firm(Next(s, l), q)
  {
    var s' := Next(s, l);
    OneMover(s, l);
    Grows(s, l);
    match l
    case Stat(_, _) =>
      assert Firm(s', s.file.value);
    case Read(_, _) =>
      assert Firm(s', s.file.value);
    case Look(_, _) =>
      assert Represented(s, a);
      var q :| 0 <= q < |s.procs| && Executes(s, q, a);
      assert Firm(s', q);
    case _ =>
  }

  lemma InvStep(s: State, l: Label)
    requires Inv(s) && Enabled(s, l)
    ensures Inv(Next(s, l))
  {
    WellFormedStep(s, l);
    JobsTakenStep(s, l);
    FailuresStep(s, l);
    BoundedStep(s, l);
    CoveredStep(s, l);
    FirmStep(s, l);
  }

  /** Every state of every run keeps the invariant. */
  lemma {:induction false} InvRun(s: State, ls: seq<Label>)
    requires Inv(s) && ValidRun(s, ls)
    ensures forall n :: 0 <= n <= |ls| ==> ValidRun(s, ls[..n]) && Inv(Final(s, ls[..n]))
    decreases |ls|
  {
    if ls != [] {
      InvStep(s, ls[0]);
      InvRun(Next(s, ls[0]), ls[1..]);
    }
    forall n | 0 < n <= |ls|
      ensures ValidRun(s, ls[..n]) && Inv(Final(s, ls[..n]))
    {
      assert ls[..n][0] == ls[0] && ls[..n][1..] == ls[1..][..n - 1];
    }
  }

  predicate AllEnded(s: State) {
    forall p :: 0 <= p < |s.procs| ==> !Active(s.procs[p])
  }

  /** An open ask is the same work. */
  predicate StillOpen(s: State, a: nat) {
    a < |s.asks| && exists b :: b in s.open && b < |s.asks| && SameWork(s.asks[a], s.asks[b])
  }

  /** No ask is lost to the lock.  Once every invocation has ended - whatever
      failed, was killed or left without looking on the way - each ask ever
      written was done by an execution begun after it was written, or deleted
      because no work was left, or was in the hands of an execution that failed,
      or is still there as an open ask for the same work.  And it is left to an
      open ask only if it was undone when somebody failed or did not look. */
  lemma NoAskLost(s: State, ls: seq<Label>, a: nat)
    requires Init(s) && ValidRun(s, ls) && AllEnded(Final(s, ls))
    requires a < |Final(s, ls).asks|
    ensures Done(Final(s, ls), a) || a in Final(s, ls).failed || StillOpen(Final(s, ls), a)
    ensures Done(Final(s, ls), a) || a in Final(s, ls).excused
  {
    assert Inv(Final(s, ls)) by {
      InvRun(s, ls);
      assert ls[..|ls|] == ls;
    }
    assert a in Undone(Final(s, ls)) <==> !Done(Final(s, ls), a);
    assert Represented(Final(s, ls), a);
  }

  // ---- What is open at the end. ----

  /** Letting go of the lock from here is the invocation's end: it is quitting, or
      it has done its ask and three others, or its time is up. */
  predicate IsLast(pc: Pc, spent: bool) {
    pc.Quitting? || (pc.Passing? && (pc.drained >= 3 || spent))
  }

  /** A step by which an invocation fails, hands its ask back, lets go of the
      lock for good, or stands aside for a lock file that a killed invocation left
      behind, its pid unreadable and its age recent. */
  predicate LeavesWithoutLooking(s: State, l: Label)
    requires WellFormed(s) && Enabled(s, l)
  {
    || l.Abort? || l.Crash? || l.Unfinished?
    || (l.Drop? && IsLast(s.procs[l.p], l.spent))
    || (l.Read? && DeadFile(s) && l.unknown && s.procs[l.p].recent)
  }

  /** Letting go of the lock takes the file away and nothing else; the invocation
      goes on to read the open asks - one that lost its row to another taker
      always does - unless it is its last time. */
  lemma DropLooksIff(s: State, l: Label)
    requires WellFormed(s) && Enabled(s, l) && l.Drop?
    ensures var pc, s' := s.procs[l.p], Next(s, l);
            && s'.file == None && s'.open == s.open && s'.asks == s.asks && s'.runs == s.runs
            && s'.procs == s.procs[l.p := if IsLast(pc, l.spent) then Ended else Looking(pc.drained)]
  {
  }

  /** The steps of a run by which somebody leaves without looking. */
  ghost function Exits(s: State, ls: seq<Label>): seq<Label>
    requires ValidRun(s, ls)
    decreases |ls|
  {
    if ls == [] then []
    else (if LeavesWithoutLooking(s, ls[0]) then [ls[0]] else []) + Exits(Next(s, ls[0]), ls[1..])
  }

  predicate SomebodyFirm(s: State)
    requires WellFormed(s)
  {
    exists p :: 0 <= p < |s.procs| && Firm(s, p)
  }

  predicate StartsOne(l: Label) {
    l.WriteAsk? || l.StartSweep? || l.StartBorrow?
  }

  predicate SomebodyStarts(ls: seq<Label>) {
    exists k :: 0 <= k < |ls| && StartsOne(ls[k])
  }

  /** Somebody firm leaves somebody firm behind, or nothing open. */
  lemma LookStep(s: State, l: Label)
    requires WellFormed(s) && FileOwned(s) && Enabled(s, l) && WellFormed(Next(s, l))
    requires SomebodyFirm(s) && !LeavesWithoutLooking(s, l)
    ensures Next(s, l).open != {} ==> SomebodyFirm(Next(s, l))
  {
    var s' := Next(s, l);
    OneMover(s, l);
    var q :| 0 <= q < |s.procs| && Firm(s, q);
    if q == l.p {
      if !Firm(s', l.p) && (l.Stat? || l.Read?) {
        assert Firm(s', s.file.value);
      }
    } else if !Firm(s', q) {
      assert !DeadFile(s') && DeadFile(s);
      assert Firm(s', l.p);
    } else {
      assert Firm(s', q);
    }
  }

  /** With nobody firm, only invocations standing aside are left: they change
      nothing, and nobody becomes firm. */
  lemma StallStep(s: State, l: Label)
    requires WellFormed(s) && FileOwned(s) && Enabled(s, l) && WellFormed(Next(s, l))
    requires !SomebodyFirm(s) && !LeavesWithoutLooking(s, l) && !StartsOne(l)
    ensures Next(s, l).open == s.open && !SomebodyFirm(Next(s, l))
  {
    var s' := Next(s, l);
    OneMover(s, l);
    assert !Firm(s, l.p);
    assert s.file.Some? ==> !Firm(s, s.file.value);
    assert l.Read? && s'.procs[l.p].Ended? && s'.file == s.file;
    forall p | 0 <= p < |s'.procs|
      ensures !Firm(s', p)
    {
      assert !Firm(s, p);
    }
  }

  /** From any state on, as long as every exit looks: once every invocation has
      ended nothing is open exactly when nothing was, or somebody firm was there,
      or somebody started. */
  lemma {:induction false} EmptyIff(s: State, ls: seq<Label>)
    requires Inv(s) && ValidRun(s, ls) && Exits(s, ls) == [] && AllEnded(Final(s, ls))
    ensures Final(s, ls).open == {} <==> s.open == {} || SomebodyFirm(s) || SomebodyStarts(ls)
    decreases |ls|
  {
    if ls != [] {
      var l, t := ls[0], Next(s, ls[0]);
      InvStep(s, l);
      EmptyIff(t, ls[1..]);
      assert SomebodyStarts(ls) <==> StartsOne(l) || SomebodyStarts(ls[1..]) by {
        if k :| 0 <= k < |ls[1..]| && StartsOne(ls[1..][k]) {
          assert StartsOne(ls[k + 1]);
        }
      }
      if StartsOne(l) {
        assert Firm(t, l.p);
      } else if SomebodyFirm(s) {
        LookStep(s, l);
      } else {
        StallStep(s, l);
      }
    }
  }

  lemma FinalFirst(s: State, l: Label, ls: seq<Label>)
    requires WellFormed(s) && Enabled(s, l) && ValidRun(Next(s, l), ls)
    ensures ValidRun(s, [l] + ls) && Final(s, [l] + ls) == Final(Next(s, l), ls)
  {
    assert ([l] + ls)[1..] == ls;
  }

  lemma {:induction false} FinalPlus(s: State, a: seq<Label>, b: seq<Label>)
    requires ValidRun(s, a) && ValidRun(Final(s, a), b)
    ensures ValidRun(s, a + b) && Final(s, a + b) == Final(Final(s, a), b)
    decreases |a|
  {
    if a == [] {
      assert a + b == b;
    } else {
      FinalPlus(Next(s, a[0]), a[1..], b);
      FinalFirst(s, a[0], a[1..] + b);
      assert a == [a[0]] + a[1..];
      Associate([a[0]], a[1..], b);
    }
  }

  /** A whole run, split anywhere past its last exit that does not look: once
      every invocation has ended, nothing is open exactly when at the split
      nothing was, or somebody firm was there, or somebody started after it. */
  lemma NothingLeftOpenIff(s: State, before: seq<Label>, after: seq<Label>)
    requires Init(s) && ValidRun(s, before) && ValidRun(Final(s, before), after)
    requires Exits(Final(s, before), after) == [] && AllEnded(Final(Final(s, before), after))
    ensures ValidRun(s, before + after)
    ensures var mid := Final(s, before);
            && WellFormed(mid)
            && (Final(s, before + after).open == {} <==>
                mid.open == {} || SomebodyFirm(mid) || SomebodyStarts(after))
  {
    FinalPlus(s, before, after);
    assert Inv(Final(s, before)) by {
      InvRun(s, before);
      assert before[..|before|] == before;
    }
    EmptyIff(Final(s, before), after);
  }

  lemma {:induction false} NothingExcused(s: State, ls: seq<Label>)
    requires Inv(s) && ValidRun(s, ls) && Exits(s, ls) == []
    ensures Final(s, ls).excused == s.excused
    decreases |ls|
  {
    if ls != [] {
      InvStep(s, ls[0]);
      assert Next(s, ls[0]).excused == s.excused;
      NothingExcused(Next(s, ls[0]), ls[1..]);
    }
  }

  /** In a run where nobody leaves without looking, once every invocation has
      ended no ask is open and every ask was executed or needless. */
  lemma NothingLeftOpen(s: State, ls: seq<Label>)
    requires Init(s) && ValidRun(s, ls) && Exits(s, ls) == [] && AllEnded(Final(s, ls))
    ensures Final(s, ls).open == {}
    ensures forall a :: 0 <= a < |Final(s, ls).asks| ==> Done(Final(s, ls), a)
  {
    assert Inv(s);
    EmptyIff(s, ls);
    NothingExcused(s, ls);
    forall a | 0 <= a < |Final(s, ls).asks|
      ensures Done(Final(s, ls), a)
    {
      NoAskLost(s, ls, a);
    }
  }

  // ---- At most one holder. ----

  /** An eviction that removes the file of a live holder. */
  predicate Robs(s: State, l: Label)
    requires WellFormed(s) && Enabled(s, l)
  {
    l.Evict? && s.file.Some? && Holding(s.procs[s.file.value])
  }

  ghost function Robbings(s: State, ls: seq<Label>): seq<Label>
    requires ValidRun(s, ls)
    decreases |ls|
  {
    if ls == [] then []
    else (if Robs(s, ls[0]) then [ls[0]] else []) + Robbings(Next(s, ls[0]), ls[1..])
  }

  /** Nobody holds the lock without owning its file. */
  predicate HoldersOwn(s: State) {
    forall p :: 0 <= p < |s.procs| && Holding(s.procs[p]) ==> s.file == Some(p)
  }

  lemma HoldersOwnStep(s: State, l: Label)
    requires WellFormed(s) && FileOwned(s) && HoldersOwn(s) && Enabled(s, l) && !Robs(s, l)
    ensures HoldersOwn(Next(s, l))
  {
  }

  lemma {:induction false} HoldersOwnRun(s: State, ls: seq<Label>)
    requires Inv(s) && HoldersOwn(s) && ValidRun(s, ls) && Robbings(s, ls) == []
    ensures HoldersOwn(Final(s, ls))
    decreases |ls|
  {
    if ls != [] {
      InvStep(s, ls[0]);
      HoldersOwnStep(s, ls[0]);
      HoldersOwnRun(Next(s, ls[0]), ls[1..]);
    }
  }

  /** Exclusion comes back: from any point of a run at which every holder owns
      the lock file - whatever was robbed before - at most one invocation holds
      the lock until a live holder's file is next removed. */
  lemma ExclusionReturns(s: State, before: seq<Label>, after: seq<Label>, p: nat, q: nat)
    requires Init(s) && ValidRun(s, before) && ValidRun(Final(s, before), after)
    requires HoldersOwn(Final(s, before)) && Robbings(Final(s, before), after) == []
    requires var end := Final(Final(s, before), after);
             p < |end.procs| && q < |end.procs| && Holding(end.procs[p]) && Holding(end.procs[q])
    ensures p == q
  {
    assert Inv(Final(s, before)) by {
      InvRun(s, before);
      assert before[..|before|] == before;
    }
    HoldersOwnRun(Final(s, before), after);
  }

  /** So while no live holder loses its lock file, no two executions overlap. */
  lemma MutualExclusion(s: State, ls: seq<Label>, p: nat, q: nat)
    requires Init(s) && ValidRun(s, ls) && Robbings(s, ls) == []
    requires p < |Final(s, ls).procs| && q < |Final(s, ls).procs|
    requires Holding(Final(s, ls).procs[p]) && Holding(Final(s, ls).procs[q])
    ensures p == q
  {
    ExclusionReturns(s, [], ls, p, q);
  }

  /** And the moment one does lose it, the one that removed it takes the lock
      beside the holder: two hold it at once. */
  lemma RobbingBreaksExclusion(s: State, p: nat)
    requires Inv(s) && Enabled(s, Evict(p)) && Robs(s, Evict(p))
    ensures var s1 := Next(s, Evict(p));
            && WellFormed(s1) && Enabled(s1, Create(p))
            && exists h :: 0 <= h < |s.procs| && h != p
                 && Holding(Next(s1, Create(p)).procs[h]) && Holding(Next(s1, Create(p)).procs[p])
  {
    InvStep(s, Evict(p));
    var s2 := Next(Next(s, Evict(p)), Create(p));
    var h := s.file.value;
    assert h != p && Holding(s2.procs[h]) && Holding(s2.procs[p]);
  }

  /** Even then: an ask in execution is taken, by one invocation, and no
      invocation executes more than its own and three others. */
  lemma TakenOnceAndBounded(s: State, ls: seq<Label>, p: nat)
    requires Init(s) && ValidRun(s, ls) && p < |Final(s, ls).procs| == |Final(s, ls).runs|
    ensures Final(s, ls).runs[p] <= 4
    ensures var end := Final(s, ls);
            end.procs[p].Working? && end.procs[p].job.Serve? ==>
              && end.procs[p].job.id !in end.open
              && (forall q :: 0 <= q < |end.procs| && q != p && end.procs[q].Working? ==>
                    end.procs[q].job != end.procs[p].job)
  {
    assert Inv(Final(s, ls)) by {
      InvRun(s, ls);
      assert ls[..|ls|] == ls;
    }
    var end := Final(s, ls);
    assert Begun(end.procs[p]) <= 1 + MAX_DRAIN_ROUNDS;
  }
}
