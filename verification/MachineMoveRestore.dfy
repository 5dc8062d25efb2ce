/** When a restore, and the catch-up that comes to its end after it, keep the
    lesson in the index. */
module MachineMoveRestore {
  import opened Basics
  import opened MachineMove
  import opened MachineMoveSafety

  // ---- A whole restore, and a whole catch-up. ----

  /** A copy the restore withdraws: the index knows no person's edit of it and
      does not hold it withdrawn. */
  predicate Withdraws(s: State, c: nat) {
    c !in s.index.edited && (c in s.index.liveCopies || c !in s.index.copies)
  }

  /** The loop over the first `n` of the lines the machine's log held. */
  function RetireTo(s: State, lines: seq<Event>, n: nat): (t: State)
    requires n <= |lines|
    ensures t.pc == s.pc && s.log <= t.log
  {
    if n == 0 then s
    else
      var t := RetireTo(s, lines, n - 1);
      if lines[n - 1].Copied? && Withdraws(t, lines[n - 1].c) then
        See(Append(t, CopyGone(lines[n - 1].c)), |t.log|)
      else t
  }

  /** A restore that brings the lesson back and comes to its end. */
  function Restored(s: State): State {
    var back := See(Append(s, Back), |s.log|);
    RetireTo(back, back.log, |back.log|)
  }

  /** A catch-up over the first `n` lines of the log. */
  function CaughtUpTo(s: State, n: nat): (t: State)
    requires n <= |s.log|
    ensures t.log == s.log && t.pc == s.pc && forall k: nat :: k >= n ==> (k in t.pending <==> k in s.pending)
  {
    if n == 0 then s
    else
      var t := CaughtUpTo(s, n - 1);
      if n - 1 in s.pending then See(t, n - 1) else t
  }

  function CaughtUp(s: State): State {
    CaughtUpTo(s, |s.log|)
  }

  // ---- Both are runs of the protocol's steps. ----

  /** These steps, each where it is enabled, lead from `s` to `t`. */
  ghost predicate Leads(s: State, ls: seq<Label>, t: State)
    decreases |ls|
  {
    if ls == [] then s == t else Enabled(s, ls[0]) && Leads(Result(s, ls[0]), ls[1..], t)
  }

  lemma {:induction false} LeadsNext(s: State, ls: seq<Label>, t: State, l: Label)
    requires Leads(s, ls, t) && Enabled(t, l)
    ensures Leads(s, ls + [l], Result(t, l))
    decreases |ls|
  {
    if ls == [] {
      assert ls + [l] == [l] && [l][1..] == [];
    } else {
      assert (ls + [l])[0] == ls[0] && (ls + [l])[1..] == ls[1..] + [l];
      LeadsNext(Result(s, ls[0]), ls[1..], t, l);
    }
  }

  /** The protocol's steps lead from `s` to `t`. */
  ghost predicate Reaches(s: State, t: State) {
    exists ls :: Leads(s, ls, t)
  }

  lemma ReachesNext(s: State, t: State, l: Label)
    requires Reaches(s, t) && Enabled(t, l)
    ensures Reaches(s, Result(t, l))
  {
    var ls :| Leads(s, ls, t);
    LeadsNext(s, ls, t, l);
  }

  lemma {:induction false} RetireReaches(s: State, t: State, lines: seq<Event>, n: nat)
    requires Reaches(s, t) && t.pc.Retiring? && n <= |lines| && lines <= t.log
    ensures Reaches(s, RetireTo(t, lines, n))
  {
    if n > 0 {
      RetireReaches(s, t, lines, n - 1);
      var u := RetireTo(t, lines, n - 1);
      if lines[n - 1].Copied? && Withdraws(u, lines[n - 1].c) {
        var c := lines[n - 1].c;
        assert u.log[n - 1] == Copied(c);
        ReachesNext(s, u, AppendRetire(c));
        ReachesNext(s, Result(u, AppendRetire(c)), IndexRetire);
      }
    }
  }

  lemma {:induction false} CatchUpReaches(s: State, t: State, n: nat)
    requires Reaches(s, t) && t.pc.Idle? && n <= |t.log|
    ensures Reaches(s, CaughtUpTo(t, n))
  {
    if n > 0 {
      CatchUpReaches(s, t, n - 1);
      if n - 1 in t.pending {
        ReachesNext(s, CaughtUpTo(t, n - 1), CatchUp(n - 1));
      }
    }
  }

  /** From any state in which a restore may begin, the protocol's steps lead to
      what the two functions say: the whole restore, then the whole catch-up. */
  lemma RestoreThenCatchUp(s: State)
    requires Enabled(s, AppendBack)
    ensures Reaches(s, CaughtUp(Restored(s).(pc := Idle)))
  {
    assert Leads(s, [], s);
    ReachesNext(s, s, AppendBack);
    var appended := Result(s, AppendBack);
    ReachesNext(s, appended, IndexBack);
    var back := Result(appended, IndexBack);
    RetireReaches(s, back, back.log, |back.log|);
    RetireKeepsPc(See(Append(s, Back), |s.log|), back.log, |back.log|, Retiring);
    var retired := RetireTo(back, back.log, |back.log|);
    ReachesNext(s, retired, EndRestore);
    CatchUpReaches(s, Result(retired, EndRestore), |retired.log|);
  }

  /** Where the process stands makes no difference to the loop. */
  lemma {:induction false} RetireKeepsPc(s: State, lines: seq<Event>, n: nat, pc: Pc)
    requires n <= |lines|
    ensures RetireTo(s.(pc := pc), lines, n) == RetireTo(s, lines, n).(pc := pc)
  {
    if n > 0 {
      RetireKeepsPc(s, lines, n - 1, pc);
    }
  }

  // ---- What they leave. ----

  /** Of the tombstones and restore notes the index has yet to see, the last is
      a tombstone. */
  predicate GoneIsLast(s: State) {
    exists k :: 0 <= k < |s.log| && k in s.pending && s.log[k].Gone?
                && forall j :: k < j < |s.log| && j in s.pending ==> !s.log[j].Back?
  }

  /** A copy outlives the restore: one whose correction by a person the index
      knows, or one the index has yet to see. */
  predicate SomeCopySurvives(s: State) {
    || (exists c :: c in s.index.liveCopies && c in s.index.edited)
    || (exists k :: 0 <= k < |s.log| && k in s.pending && s.log[k].Copied? && s.log[k].c !in s.index.copies)
  }

  predicate PendingInLog(s: State) {
    forall k :: k in s.pending ==> k < |s.log|
  }

  ghost predicate RetireGives(s: State, lines: seq<Event>, n: nat)
    requires n <= |lines|
  {
    var t := RetireTo(s, lines, n);
    && t.pending == s.pending && t.index == s.index.(liveCopies := t.index.liveCopies)
    && forall c: nat :: c in t.index.liveCopies <==>
         c in s.index.liveCopies && (c in s.index.edited || Copied(c) !in lines[..n])
  }

  lemma {:induction false} RetireLeaves(s: State, lines: seq<Event>, n: nat)
    requires n <= |lines| && PendingInLog(s)
    ensures forall k: nat :: k <= n ==> RetireGives(s, lines, k)
  {
    if n > 0 {
      RetireLeaves(s, lines, n - 1);
      assert RetireGives(s, lines, n - 1);
      assert lines[..n] == lines[..n - 1] + [lines[n - 1]];
    }
  }

  /** After a whole restore: the lesson live, only copies a person corrected. */
  lemma RestoreLeaves(s: State)
    requires PendingInLog(s) && forall c :: c in s.index.liveCopies ==> Copied(c) in s.log
    ensures var t := Restored(s);
            && s.log <= t.log && t.pending == s.pending
            && t.index == s.index.(live := true, marked := true, liveCopies := s.index.liveCopies * s.index.edited)
  {
    var back := See(Append(s, Back), |s.log|);
    assert back.pending == s.pending && back.log == s.log + [Back];
    RetireLeaves(back, back.log, |back.log|);
    assert RetireGives(back, back.log, |back.log|);
    assert back.log[..|back.log|] == back.log;
  }

  lemma {:induction false} RetireLogs(s: State, lines: seq<Event>, n: nat, c: nat)
    requires n <= |lines| && PendingInLog(s)
    ensures CopyGone(c) in RetireTo(s, lines, n).log <==>
            CopyGone(c) in s.log || (Copied(c) in lines[..n] && Withdraws(s, c))
  {
    if n > 0 {
      RetireLogs(s, lines, n - 1, c);
      RetireLeaves(s, lines, n - 1);
      assert RetireGives(s, lines, n - 1);
      assert lines[..n] == lines[..n - 1] + [lines[n - 1]];
    }
  }

  /** A restore withdraws for good - in the log, so for a rebuild too - exactly the
      copies the machine's log has that no person corrected, as far as the index
      knows, and that the index does not hold withdrawn already. */
  lemma RestoreWithdrawsIff(s: State, c: nat)
    requires PendingInLog(s)
    ensures CopyGone(c) in Restored(s).log <==>
            || CopyGone(c) in s.log
            || (Copied(c) in s.log && c !in s.index.edited && (c in s.index.copies ==> c in s.index.liveCopies))
  {
    var back := See(Append(s, Back), |s.log|);
    RetireLogs(back, back.log, |back.log|, c);
    assert back.log[..|back.log|] == back.log && back.log == s.log + [Back];
  }

  /** The verdict on the lesson after catching up the first `n` lines. */
  predicate LiveUpTo(s: State, n: nat)
    requires n <= |s.log|
  {
    if n == 0 then s.index.live
    else if n - 1 in s.pending && s.log[n - 1].Gone? then false
    else if n - 1 in s.pending && s.log[n - 1].Back? then true
    else LiveUpTo(s, n - 1)
  }

  predicate CopyComesUpTo(s: State, n: nat)
    requires n <= |s.log|
  {
    exists k :: 0 <= k < n && k in s.pending && s.log[k].Copied? && s.log[k].c !in s.index.copies
  }

  ghost predicate CatchUpGives(s: State, n: nat)
    requires n <= |s.log|
  {
    var t := CaughtUpTo(s, n);
    && t.index.live == LiveUpTo(s, n)
    && (t.index.liveCopies != {} <==> s.index.liveCopies != {} || CopyComesUpTo(s, n))
    && s.index.liveCopies <= t.index.liveCopies && s.index.copies <= t.index.copies
    && forall c :: c in t.index.copies && c !in s.index.copies ==> c in t.index.liveCopies
  }

  lemma {:induction false} CatchUpLeaves(s: State, n: nat)
    requires n <= |s.log|
    requires forall k, c :: 0 <= k < n && k in s.pending ==> s.log[k] != CopyGone(c)
    ensures forall k: nat :: k <= n ==> CatchUpGives(s, k)
  {
    if n > 0 {
      CatchUpLeaves(s, n - 1);
      assert CatchUpGives(s, n - 1);
      var t, u := CaughtUpTo(s, n - 1), CaughtUpTo(s, n);
      if n - 1 in s.pending {
        if s.log[n - 1].Copied? {
          var c := s.log[n - 1].c;
          if c !in s.index.copies {
            assert CopyComesUpTo(s, n);
            assert c in u.index.liveCopies;
          }
        }
      }
      assert CopyComesUpTo(s, n - 1) ==> CopyComesUpTo(s, n);
    }
  }

  lemma {:induction false} CherishedStays(s: State, n: nat, c: nat)
    requires n <= |s.log| && c in s.index.liveCopies
    requires forall k :: 0 <= k < n && k in s.pending ==> s.log[k] != CopyGone(c)
    ensures c in CaughtUpTo(s, n).index.liveCopies
  {
    if n > 0 {
      CherishedStays(s, n - 1, c);
    }
  }

  lemma {:induction false} LiveIsLastVerdict(s: State, n: nat)
    requires n <= |s.log| && s.index.live
    ensures LiveUpTo(s, n) <==>
            !(exists k :: 0 <= k < n && k in s.pending && s.log[k].Gone?
                          && forall j :: k < j < n && j in s.pending ==> !s.log[j].Back?)
  {
    if n > 0 {
      LiveIsLastVerdict(s, n - 1);
    }
  }

  // ---- The exact condition. ----

  /** From a state of a history so far informed in which a restore may bring the
      lesson back: the whole restore, and the whole catch-up after it, keep the
      lesson in the index exactly when the last of its tombstones and restore
      notes that wait to be indexed is no tombstone, or some copy survives. */
  lemma RestoreKeepsIff(s: State)
    requires IndexInv(s) && Enabled(s, AppendBack)
    ensures KeptInIndex(CaughtUp(Restored(s)).index) <==> !GoneIsLast(s) || SomeCopySurvives(s)
  {
    RestoreLeaves(s);
    var t := Restored(s);
    assert forall k :: k in t.pending ==> k < |s.log| && t.log[k] == s.log[k];
    if c :| Cherished(s.log, s.index, c) {
      CherishedStays(t, |t.log|, c);
    } else {
      assert forall k, c :: 0 <= k < |t.log| && k in t.pending && t.log[k] == CopyGone(c) ==> CopyGone(c) in s.log;
      CatchUpLeaves(t, |t.log|);
      assert CatchUpGives(t, |t.log|);
      LiveIsLastVerdict(t, |t.log|);
      SameVerdict(s, t);
      SameCopies(s, t);
    }
  }

  lemma SameVerdict(s: State, t: State)
    requires s.log <= t.log && t.pending == s.pending && PendingInLog(s)
    ensures GoneIsLast(s) <==> GoneIsLast(t)
  {
    if k :| 0 <= k < |s.log| && k in s.pending && s.log[k].Gone?
            && forall j :: k < j < |s.log| && j in s.pending ==> !s.log[j].Back? {
      assert t.log[k].Gone?;
      assert forall j :: k < j < |t.log| && j in t.pending ==> t.log[j] == s.log[j];
    }
    if k :| 0 <= k < |t.log| && k in t.pending && t.log[k].Gone?
            && forall j :: k < j < |t.log| && j in t.pending ==> !t.log[j].Back? {
      assert s.log[k].Gone?;
      assert forall j :: k < j < |s.log| && j in s.pending ==> t.log[j] == s.log[j];
    }
  }

  lemma SameCopies(s: State, t: State)
    requires s.log <= t.log && t.pending == s.pending && PendingInLog(s) && t.index.copies == s.index.copies
    requires forall c: nat :: c in t.index.liveCopies <==> c in s.index.liveCopies && c in s.index.edited
    ensures SomeCopySurvives(s) <==> t.index.liveCopies != {} || CopyComesUpTo(t, |t.log|)
  {
    if c :| c in s.index.liveCopies && c in s.index.edited {
      assert c in t.index.liveCopies;
    }
    if t.index.liveCopies != {} {
      var c :| c in t.index.liveCopies;
      assert c in s.index.liveCopies && c in s.index.edited;
    }
    if k :| 0 <= k < |s.log| && k in s.pending && s.log[k].Copied? && s.log[k].c !in s.index.copies {
      assert t.log[k] == s.log[k];
    }
    if k :| 0 <= k < |t.log| && k in t.pending && t.log[k].Copied? && t.log[k].c !in t.index.copies {
      assert t.log[k] == s.log[k];
    }
  }
}
