/** One narrative per session.

    Passes of any number of invocations overlap; each claims a session before
    working on it, and after claiming asks whether a run it raced already
    covered the same backlog.  A forced ask for one session, or the daily
    maintenance, reopens it when it was settled without a summary: it forgets the
    session's row, claim and all.
    The clock is logical: it only moves forward, and any number of steps may
    share an instant. */
module SessionClaims {
  import opened Basics

  /** `Settled` is a quiet or headless run, which writes nothing. */
  datatype Tier = Settled | Narrated

  /** A recorded run of a session: who, when, the newest event it covered, how. */
  datatype Record = Record(inv: nat, at: nat, event: string, tier: Tier)

  /** A `session_state` row, with the session's history: every record ever
      written, and the positions of those a reopening forgot, of the forgotten
      that were no settled runs, and of those recorded by an invocation whose
      claim was no longer its own.  Only `claim` and `last` are the row's;
      nothing reads the rest. */
  datatype Row = Row(
    claim: Option<nat>, last: Option<Record>,
    records: seq<Record>, reopened: set<nat>, wiped: set<nat>, lost: set<nat>)

  const NO_ROW := Row(None, None, [], {}, {}, {})

  /** Where an invocation stands with one session. */
  datatype Stage =
    | Resting
    | Listed(session: string, newest: string)
    | Claimed(session: string, newest: string)
    | Working(session: string, newest: string)
    | Recorded(session: string)
    | Leaving(session: string)          // about to release the claim
    | Reopening(session: string)        // found it settled; about to forget its row

  datatype Invocation = Invocation(began: Option<nat>, stage: Stage)

  datatype State = State(now: nat, rows: map<string, Row>, invs: seq<Invocation>)

  datatype Step =
    | Tick
    | Begin(i: nat)
    | List(i: nat, session: string, newest: string)
    | Claim(i: nat)
    | Steal(i: nat)                     // a claim older than CLAIM_STALE_SECS is taken over
    | Check(i: nat)
    | Record(i: nat, tier: Tier)        // the work ends by recording the run
    | Fail(i: nat)                      // or by an error, which records none
    | Release(i: nat)
    | Judge(i: nat, session: string)    // a reopening reads the session's last tier
    | Forget(i: nat)                    // and deletes its row

  predicate Init(s: State) {
    && s.rows == map[]
    && forall i :: 0 <= i < |s.invs| ==> s.invs[i] == Invocation(None, Resting)
  }

  function RowOf(s: State, session: string): Row {
    if session in s.rows then s.rows[session] else NO_ROW
  }

  predicate Enabled(s: State, l: Step) {
    l.Tick? ||
    (l.i < |s.invs| &&
     var inv := s.invs[l.i];
     match l
     case Begin(_) => inv.began.None?
     case List(_, _, _) => inv.began.Some? && inv.stage.Resting?
     case Claim(_) => inv.stage.Listed?
     case Steal(_) => inv.stage.Listed? && RowOf(s, inv.stage.session).claim.Some?
     case Check(_) => inv.stage.Claimed? && inv.began.Some?
     case Record(_, _) => inv.stage.Working?
     case Fail(_) => inv.stage.Working?
     case Release(_) => inv.stage.Recorded? || inv.stage.Leaving?
     case Judge(_, session) => inv.began.Some? && inv.stage.Resting?
     case Forget(_) => inv.stage.Reopening?)
  }

  /** A run recorded after this invocation began covers the same backlog. */
  predicate Superseded(row: Row, newest: string, began: nat) {
    row.last.Some? && row.last.value.event == newest && row.last.value.at > began
  }

  predicate IsSettled(row: Row) {
    row.last.Some? && row.last.value.tier.Settled?
  }

  function Goto(s: State, i: nat, stage: Stage): State
    requires i < |s.invs|
  {
    s.(invs := s.invs[i := s.invs[i].(stage := stage)])
  }

  function Put(s: State, i: nat, stage: Stage, session: string, row: Row): State
    requires i < |s.invs|
  {
    Goto(s, i, stage).(rows := s.rows[session := row])
  }

  function Next(s: State, l: Step): State
    requires Enabled(s, l)
  {
    if l.Tick? then s.(now := s.now + 1)
    else
      var i, inv := l.i, s.invs[l.i];
      match l
      case Begin(_) => s.(invs := s.invs[i := inv.(began := Some(s.now))])
      case List(_, session, newest) => Goto(s, i, Listed(session, newest))
      case Claim(_) =>
        var row := RowOf(s, inv.stage.session);
        if row.claim.None? then
          Put(s, i, Claimed(inv.stage.session, inv.stage.newest), inv.stage.session, row.(claim := Some(i)))
        else Goto(s, i, Resting)
      case Steal(_) =>
        var row := RowOf(s, inv.stage.session);
        Put(s, i, Claimed(inv.stage.session, inv.stage.newest), inv.stage.session, row.(claim := Some(i)))
      case Check(_) =>
        if Superseded(RowOf(s, inv.stage.session), inv.stage.newest, inv.began.value)
        then Goto(s, i, Leaving(inv.stage.session))
        else Goto(s, i, Working(inv.stage.session, inv.stage.newest))
      case Record(_, tier) =>
        var row := RowOf(s, inv.stage.session);
        var record := Record.Record(i, s.now, inv.stage.newest, tier);
        Put(s, i, Recorded(inv.stage.session), inv.stage.session,
            row.(last := Some(record), records := row.records + [record],
                 lost := row.lost + if row.claim != Some(i) then {|row.records|} else {}))
      case Fail(_) => Goto(s, i, Leaving(inv.stage.session))
      case Release(_) =>
        Put(s, i, Resting, inv.stage.session, RowOf(s, inv.stage.session).(claim := None))
      case Judge(_, session) =>
        if IsSettled(RowOf(s, session)) then Goto(s, i, Reopening(session)) else s
      case Forget(_) =>
        var row := RowOf(s, inv.stage.session);
        var forgotten: set<nat> := if row.last.Some? && row.records != [] then {|row.records| - 1} else {};
        Put(s, i, Resting, inv.stage.session,
            row.(claim := None, last := None, reopened := row.reopened + forgotten,
                 wiped := row.wiped + if IsSettled(row) then {} else forgotten))
  }

  /** The later run `b` of a session began no earlier than `a` was recorded, or
      they cover different events. */
  predicate NotRedone(invs: seq<Invocation>, a: Record, b: Record) {
    a.event == b.event ==>
      b.inv < |invs| && invs[b.inv].began.Some? && a.at <= invs[b.inv].began.value
  }

  // ---- The invariant. ----

  ghost predicate Inv(s: State) {
    && Begun(s)
    && (forall session :: session in s.rows ==> RowTrue(s.rows[session]))
    && ChecksStand(s) && NoneRedone(s)
  }

  predicate Begun(s: State) {
    && (forall i :: 0 <= i < |s.invs| && s.invs[i].began.Some? ==> s.invs[i].began.value <= s.now)
    && (forall i :: 0 <= i < |s.invs| && !s.invs[i].stage.Resting? ==> s.invs[i].began.Some?)
  }

  /** The row's last run is the last recorded, unless that was forgotten; what
      was forgotten was settled, or wiped. */
  predicate RowTrue(row: Row) {
    && (row.last.Some? ==> row.records != [] && row.last.value == row.records[|row.records| - 1]
                           && |row.records| - 1 !in row.reopened)
    && (row.last.None? && row.records != [] ==> |row.records| - 1 in row.reopened)
    && (forall k :: k in row.reopened ==> k < |row.records| && (k in row.wiped || row.records[k].tier.Settled?))
  }

  /** Whoever works under its own claim found the last run no reason to stop,
      and it still is the last - or the last was recorded without a claim. */
  ghost predicate ChecksStand(s: State) {
    forall i :: 0 <= i < |s.invs| && s.invs[i].stage.Working? && s.invs[i].began.Some?
                && RowOf(s, s.invs[i].stage.session).claim == Some(i) ==>
      NoReason(RowOf(s, s.invs[i].stage.session), s.invs[i].stage.newest, s.invs[i].began.value)
  }

  predicate NoReason(row: Row, newest: string, began: nat) {
    !Superseded(row, newest, began) || (row.records != [] && |row.records| - 1 in row.lost)
  }

  /** What excuses a second run for the event of run `k`: that was forgotten, or
      one of the two was recorded by somebody whose claim was gone. */
  predicate Excused(row: Row, k: nat) {
    k in row.reopened || k in row.lost || k + 1 in row.lost
  }

  ghost predicate NoneRedone(s: State) {
    forall session, k :: session in s.rows && 0 <= k < |s.rows[session].records| - 1
                         && !Excused(s.rows[session], k) ==>
      NotRedone(s.invs, s.rows[session].records[k], s.rows[session].records[k + 1])
  }

  lemma BegunStep(s: State, l: Step)
    requires Begun(s) && Enabled(s, l)
    ensures Begun(Next(s, l))
  {
    forall i | 0 <= i < |s.invs|
      ensures var inv := Next(s, l).invs[i];
              if inv.began.Some? then inv.began.value <= Next(s, l).now else inv.stage.Resting?
    {
      assert s.invs[i].began.Some? || s.invs[i].stage.Resting?;
      if !l.Tick? && i != l.i {
        assert Next(s, l).invs[i] == s.invs[i];
      }
    }
  }

  lemma RowsStep(s: State, l: Step, session: string)
    requires Inv(s) && Enabled(s, l) && session in Next(s, l).rows
    ensures RowTrue(Next(s, l).rows[session])
  {
    assert session in s.rows ==> RowTrue(s.rows[session]);
    if !l.Record? && !l.Forget? {
      RowUntouched(s, l, session);
    } else if s.invs[l.i].stage.session == session {
      RowWritten(s, l);
    }
  }

  lemma RowWritten(s: State, l: Step)
    requires Enabled(s, l) && (l.Record? || l.Forget?)
    requires RowTrue(RowOf(s, s.invs[l.i].stage.session))
    ensures RowTrue(Next(s, l).rows[s.invs[l.i].stage.session])
  {
  }

  /** Only recording and forgetting change what a row says of past runs. */
  lemma RowUntouched(s: State, l: Step, session: string)
    requires Enabled(s, l) && !l.Record? && !l.Forget? && session in Next(s, l).rows
    ensures Next(s, l).rows[session] == RowOf(s, session).(claim := Next(s, l).rows[session].claim)
  {
  }

  /** While an invocation holds its claim nothing is forgotten, and whoever else
      records does it without one, so what it checked still stands when it does. */
  lemma ChecksStep(s: State, l: Step)
    requires Inv(s) && Enabled(s, l)
    ensures ChecksStand(Next(s, l))
  {
    var s' := Next(s, l);
    forall i | 0 <= i < |s'.invs| && s'.invs[i].stage.Working? && s'.invs[i].began.Some?
               && RowOf(s', s'.invs[i].stage.session).claim == Some(i)
      ensures NoReason(RowOf(s', s'.invs[i].stage.session), s'.invs[i].stage.newest, s'.invs[i].began.value)
    {
      if !l.Tick? && i != l.i {
        assert s'.invs[i] == s.invs[i];
      }
    }
  }

  /** Runs already recorded stay as they are. */
  lemma OlderPair(s: State, l: Step, session: string, k: nat)
    requires Inv(s) && Enabled(s, l) && session in s.rows && k + 1 < |s.rows[session].records|
    requires session in Next(s, l).rows && !Excused(Next(s, l).rows[session], k)
    ensures var s' := Next(s, l);
            && s.rows[session].records <= s'.rows[session].records
            && NotRedone(s'.invs, s'.rows[session].records[k], s'.rows[session].records[k + 1])
  {
    HistoryGrows(s, l, session);
    BeganStays(s, l);
    assert NotRedone(s.invs, s.rows[session].records[k], s.rows[session].records[k + 1]);
  }

  lemma HistoryGrows(s: State, l: Step, session: string)
    requires Enabled(s, l) && session in s.rows
    ensures session in Next(s, l).rows
    ensures var row, row' := s.rows[session], Next(s, l).rows[session];
            row.records <= row'.records && row.reopened <= row'.reopened && row.lost <= row'.lost
  {
  }

  lemma BeganStays(s: State, l: Step)
    requires Enabled(s, l)
    ensures |Next(s, l).invs| == |s.invs|
    ensures forall i :: 0 <= i < |s.invs| && s.invs[i].began.Some? ==> Next(s, l).invs[i].began == s.invs[i].began
  {
  }

  /** A run recorded now was checked against the one before it. */
  lemma NewPair(s: State, l: Step, session: string, k: nat)
    requires Inv(s) && Enabled(s, l) && session in Next(s, l).rows
    requires session in s.rows ==> k + 1 >= |s.rows[session].records|
    requires k + 1 < |Next(s, l).rows[session].records| && !Excused(Next(s, l).rows[session], k)
    ensures var s' := Next(s, l);
            NotRedone(s'.invs, s'.rows[session].records[k], s'.rows[session].records[k + 1])
  {
    assert l.Record? && s.invs[l.i].stage.session == session && session in s.rows;
    assert RowTrue(s.rows[session]);
  }

  lemma InvStep(s: State, l: Step)
    requires Inv(s) && Enabled(s, l)
    ensures Inv(Next(s, l))
  {
    BegunStep(s, l);
    forall session | session in Next(s, l).rows
      ensures RowTrue(Next(s, l).rows[session])
    {
      RowsStep(s, l, session);
    }
    ChecksStep(s, l);
    forall session, k: nat | session in Next(s, l).rows && k < |Next(s, l).rows[session].records| - 1
                             && !Excused(Next(s, l).rows[session], k)
      ensures NotRedone(Next(s, l).invs, Next(s, l).rows[session].records[k], Next(s, l).rows[session].records[k + 1])
    {
      if session in s.rows && k + 1 < |s.rows[session].records| {
        OlderPair(s, l, session, k);
      } else {
        NewPair(s, l, session, k);
      }
    }
  }

  ghost predicate ValidRun(s: State, ls: seq<Step>)
    decreases |ls|
  {
    ls == [] || (Enabled(s, ls[0]) && ValidRun(Next(s, ls[0]), ls[1..]))
  }

  ghost function Final(s: State, ls: seq<Step>): State
    requires ValidRun(s, ls)
    decreases |ls|
  {
    if ls == [] then s else Final(Next(s, ls[0]), ls[1..])
  }

  lemma {:induction false} InvHolds(s: State, ls: seq<Step>)
    requires Inv(s) && ValidRun(s, ls)
    ensures forall n :: 0 <= n <= |ls| ==> ValidRun(s, ls[..n]) && Inv(Final(s, ls[..n]))
    decreases |ls|
  {
    if ls != [] {
      InvStep(s, ls[0]);
      InvHolds(Next(s, ls[0]), ls[1..]);
    }
    forall n | 0 < n <= |ls|
      ensures ValidRun(s, ls[..n]) && Inv(Final(s, ls[..n]))
    {
      assert ls[..n][0] == ls[0] && ls[..n][1..] == ls[1..][..n - 1];
    }
  }

  // ---- What every interleaving keeps. ----

  /** Whatever happened to any claim of any session: of two runs of a session
      recorded one after the other for one newest event the later invocation
      began no earlier than the first was recorded, unless a reopening forgot the
      first, or one of these two was recorded after its claim was lost. */
  lemma RedoneOnlyIfReopened(s: State, ls: seq<Step>, session: string, k: nat)
    requires Init(s) && ValidRun(s, ls)
    requires session in Final(s, ls).rows && k + 1 < |Final(s, ls).rows[session].records|
    ensures var end, row := Final(s, ls), Final(s, ls).rows[session];
            NotRedone(end.invs, row.records[k], row.records[k + 1])
            || k in row.reopened || k in row.lost || k + 1 in row.lost
    ensures var row := Final(s, ls).rows[session];
            k in row.reopened ==> row.records[k].tier.Settled? || k in row.wiped
  {
    InvHolds(s, ls);
    assert ls[..|ls|] == ls;
    assert RowTrue(Final(s, ls).rows[session]);
  }

  /** So no narrative is written twice by overlapping invocations: after a run
      that wrote one, the next for the same event began no earlier than it was
      recorded, unless a reopening forgot this very run though it was not settled,
      or one of the two was recorded after its claim was lost. */
  lemma NoNarrativeTwice(s: State, ls: seq<Step>, session: string, k: nat)
    requires Init(s) && ValidRun(s, ls)
    requires session in Final(s, ls).rows && k + 1 < |Final(s, ls).rows[session].records|
    requires Final(s, ls).rows[session].records[k].tier.Narrated?
    requires Final(s, ls).rows[session].records[k].event == Final(s, ls).rows[session].records[k + 1].event
    ensures var end, row := Final(s, ls), Final(s, ls).rows[session];
            var a, b := row.records[k], row.records[k + 1];
            || k in row.wiped || k in row.lost || k + 1 in row.lost
            || (b.inv < |end.invs| && end.invs[b.inv].began.Some? && a.at <= end.invs[b.inv].began.value)
  {
    RedoneOnlyIfReopened(s, ls, session, k);
  }
}
