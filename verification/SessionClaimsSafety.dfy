/** What the checks of a claimed session let through, and who works on it. */
module SessionClaimsSafety {
  import opened Basics
  import opened SessionClaims

  // ---- What a check, and a reopening, goes by. ----

  /** The session's last run, if no reopening has forgotten it. */
  function LastRun(row: Row): Option<Record> {
    var n := |row.records|;
    if n > 0 && n - 1 !in row.reopened then Some(row.records[n - 1]) else None
  }

  lemma RunIsTrue(s: State, ls: seq<Step>, session: string)
    requires Init(s) && ValidRun(s, ls)
    ensures RowTrue(RowOf(Final(s, ls), session))
  {
    InvHolds(s, ls);
    assert ls[..|ls|] == ls;
  }

  /** In every run: a claimed session is left alone exactly when its last run, not
      forgotten since, covered the same newest event and was recorded strictly
      after this invocation began.  Every other is worked on - so a later
      invocation may write the summary an earlier one had no model for. */
  lemma CheckStopsIff(s: State, ls: seq<Step>, i: nat)
    requires Init(s) && ValidRun(s, ls) && Enabled(Final(s, ls), Check(i))
    ensures var t, inv := Final(s, ls), Final(s, ls).invs[i];
            var last := LastRun(RowOf(t, inv.stage.session));
            var covered := last.Some? && last.value.event == inv.stage.newest && last.value.at > inv.began.value;
            Next(t, Check(i)) == t.(invs := t.invs[i := inv.(stage :=
              if covered then Leaving(inv.stage.session) else Working(inv.stage.session, inv.stage.newest))])
  {
    RunIsTrue(s, ls, Final(s, ls).invs[i].stage.session);
  }

  /** A reopening goes ahead exactly when the session's last run, not forgotten
      since, settled it; it then forgets that run, whatever it is by then, and the
      claim with it. */
  lemma ReopensIff(s: State, ls: seq<Step>, i: nat, session: string)
    requires Init(s) && ValidRun(s, ls) && Enabled(Final(s, ls), Judge(i, session))
    ensures var t := Final(s, ls);
            var last := LastRun(RowOf(t, session));
            Next(t, Judge(i, session)).invs[i].stage ==
            if last.Some? && last.value.tier.Settled? then Reopening(session) else Resting
  {
    RunIsTrue(s, ls, session);
  }

  lemma ForgetForgets(s: State, ls: seq<Step>, i: nat)
    requires Init(s) && ValidRun(s, ls) && Enabled(Final(s, ls), Forget(i))
    ensures var t := Final(s, ls);
            var session := t.invs[i].stage.session;
            var row, row' := RowOf(t, session), RowOf(Next(t, Forget(i)), session);
            && LastRun(row').None? && row'.claim.None? && row'.records == row.records
            && (row'.reopened == if LastRun(row).Some? then row.reopened + {|row.records| - 1} else row.reopened)
  {
    RunIsTrue(s, ls, Final(s, ls).invs[i].stage.session);
  }

  /** Only a recording adds a run, its own, at its instant. */
  lemma RecordedNow(s: State, l: Step, session: string)
    requires Enabled(s, l)
    ensures RowOf(Next(s, l), session).records == RowOf(s, session).records +
              (if l.Record? && s.invs[l.i].stage.session == session
               then [Record.Record(l.i, s.now, s.invs[l.i].stage.newest, l.tier)] else [])
  {
  }

  /** An invocation begins at the instant it begins, and once. */
  lemma BegunNow(s: State, l: Step, i: nat)
    requires Enabled(s, l) && i < |s.invs|
    ensures i < |Next(s, l).invs|
    ensures Next(s, l).invs[i].began == if l == Begin(i) then Some(s.now) else s.invs[i].began
    ensures Next(s, l).now == if l.Tick? then s.now + 1 else s.now
  {
  }

  // ---- One at a time. ----

  /** Between claiming the session and letting go of it. */
  predicate HasInHand(stage: Stage, session: string) {
    (stage.Claimed? || stage.Working? || stage.Recorded? || stage.Leaving?) && stage.session == session
  }

  /** A step that takes a claim of this session from whoever holds it. */
  predicate Disturbs(s: State, l: Step, session: string)
    requires Enabled(s, l)
  {
    (l.Steal? || l.Forget?) && s.invs[l.i].stage.session == session
  }

  ghost predicate Undisturbed(s: State, ls: seq<Step>, session: string)
    requires ValidRun(s, ls)
    decreases |ls|
  {
    ls == [] || (!Disturbs(s, ls[0], session) && Undisturbed(Next(s, ls[0]), ls[1..], session))
  }

  /** Whoever has the session in hand has its claim, and whoever has its claim has
      it in hand. */
  predicate ClaimsHeld(s: State, session: string) {
    var claim := RowOf(s, session).claim;
    && (claim.Some? ==> claim.value < |s.invs| && HasInHand(s.invs[claim.value].stage, session))
    && forall i :: 0 <= i < |s.invs| && HasInHand(s.invs[i].stage, session) ==> claim == Some(i)
  }

  lemma ClaimsHeldStep(s: State, l: Step, session: string)
    requires Enabled(s, l) && ClaimsHeld(s, session) && !Disturbs(s, l, session)
    ensures ClaimsHeld(Next(s, l), session)
  {
  }

  lemma {:induction false} ClaimsHeldRun(s: State, ls: seq<Step>, session: string)
    requires ValidRun(s, ls) && ClaimsHeld(s, session) && Undisturbed(s, ls, session)
    ensures ClaimsHeld(Final(s, ls), session)
    decreases |ls|
  {
    if ls != [] {
      ClaimsHeldStep(s, ls[0], session);
      ClaimsHeldRun(Next(s, ls[0]), ls[1..], session);
    }
  }

  /** While no claim of a session is taken over or erased, at most one invocation
      at a time has the session in hand, and it is free exactly when none has. */
  lemma OneAtWork(s: State, ls: seq<Step>, session: string)
    requires Init(s) && ValidRun(s, ls) && Undisturbed(s, ls, session)
    ensures var t := Final(s, ls);
            && (forall i, j :: 0 <= i < j < |t.invs| ==>
                  !HasInHand(t.invs[i].stage, session) || !HasInHand(t.invs[j].stage, session))
            && (RowOf(t, session).claim.None? <==>
                  forall i :: 0 <= i < |t.invs| ==> !HasInHand(t.invs[i].stage, session))
  {
    ClaimsHeldRun(s, ls, session);
  }

  /** A listed session is claimed exactly when nobody holds it. */
  lemma ClaimsIff(s: State, i: nat)
    requires Enabled(s, Claim(i))
    ensures var stage, t := s.invs[i].stage, Next(s, Claim(i));
            && t.invs[i].stage ==
               (if RowOf(s, stage.session).claim.None? then Claimed(stage.session, stage.newest) else Resting)
            && (RowOf(s, stage.session).claim.Some? ==> t.rows == s.rows)
  {
  }

  // ---- Nobody is stuck with a claim. ----

  /** These steps of this invocation let the session go. */
  ghost predicate LetsGo(s: State, i: nat, session: string, ls: seq<Step>) {
    && ValidRun(s, ls) && (forall k :: 0 <= k < |ls| ==> !ls[k].Tick? && ls[k].i == i)
    && i < |Final(s, ls).invs| && Final(s, ls).invs[i].stage.Resting?
    && session in Final(s, ls).rows && Final(s, ls).rows[session].claim.None?
  }

  lemma LetsGoFirst(s: State, i: nat, session: string, l: Step, ls: seq<Step>)
    requires Enabled(s, l) && !l.Tick? && l.i == i && LetsGo(Next(s, l), i, session, ls)
    ensures LetsGo(s, i, session, [l] + ls)
  {
    assert ([l] + ls)[1..] == ls;
  }

  lemma DoneLetsGo(s: State, i: nat)
    requires i < |s.invs| && (s.invs[i].stage.Recorded? || s.invs[i].stage.Leaving?)
    ensures LetsGo(s, i, s.invs[i].stage.session, [Release(i)] + [])
  {
    var t := Next(s, Release(i));
    assert ValidRun(t, []) && Final(t, []) == t;
    LetsGoFirst(s, i, s.invs[i].stage.session, Release(i), []);
  }

  lemma WorkingLetsGo(s: State, i: nat)
    requires i < |s.invs| && s.invs[i].stage.Working?
    ensures LetsGo(s, i, s.invs[i].stage.session, [Fail(i)] + ([Release(i)] + []))
  {
    DoneLetsGo(Next(s, Fail(i)), i);
    LetsGoFirst(s, i, s.invs[i].stage.session, Fail(i), [Release(i)] + []);
  }

  /** Whoever has a session in hand can let it go by steps of its own: superseded,
      failed or done, it releases the claim. */
  lemma CanLetGo(s: State, i: nat, session: string)
    requires i < |s.invs| && s.invs[i].began.Some? && HasInHand(s.invs[i].stage, session)
    ensures exists ls :: LetsGo(s, i, session, ls)
  {
    if s.invs[i].stage.Claimed? {
      var t := Next(s, Check(i));
      if t.invs[i].stage.Working? {
        WorkingLetsGo(t, i);
        LetsGoFirst(s, i, session, Check(i), [Fail(i)] + ([Release(i)] + []));
      } else {
        DoneLetsGo(t, i);
        LetsGoFirst(s, i, session, Check(i), [Release(i)] + []);
      }
    } else if s.invs[i].stage.Working? {
      WorkingLetsGo(s, i);
    } else {
      DoneLetsGo(s, i);
    }
  }
}
