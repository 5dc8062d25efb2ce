/** No lesson is lost on its way to the machine or back. */
module MachineMoveSafety {
  import opened Basics
  import opened MachineMove

  // ---- The log never loses a lesson. ----

  ghost predicate LogInv(s: State) {
    && KeptInLog(s.log)
    && (s.pc.CopyAppended? || s.pc.CopyIndexed? ==> CopyLiveInLog(s.log, s.pc.c))
    && (s.pc.BackAppended? || s.pc.Retiring? || s.pc.RetireAppended? ==> LiveInLog(s.log))
    && (forall c :: CopyGone(c) in s.log ==> Copied(c) in s.log)
  }

  lemma LogGrows(log: seq<Event>, e: Event)
    ensures LiveInLog(log + [e]) <==> e.Back? || (!e.Gone? && LiveInLog(log))
    ensures forall c :: CopyLiveInLog(log + [e], c) <==>
              (CopyLiveInLog(log, c) || (e == Copied(c) && CopyGone(c) !in log)) && e != CopyGone(c)
  {
    assert (log + [e])[..|log|] == log;
  }

  lemma LogInvStep(s: State, l: Label, t: State)
    requires LogInv(s) && Next(s, l, t)
    ensures LogInv(t)
  {
    match l
    case AppendCopy(c) => LogGrows(s.log, Copied(c)); assert CopyLiveInLog(t.log, c);
    case AppendGone => LogGrows(s.log, Gone); assert CopyLiveInLog(t.log, s.pc.c);
    case AppendBack => LogGrows(s.log, Back);
    case AppendRetire(c) => LogGrows(s.log, CopyGone(c));
    case Edit(c, _) =>
      LogGrows(s.log, Edited(c));
      assert forall d :: CopyLiveInLog(s.log, d) ==> CopyLiveInLog(t.log, d);
    case _ =>
  }

  /** In every history, wherever the process dies, a rebuild from the log finds
      the lesson live in its project or a live copy of it. */
  lemma {:induction false} NeverLostInLog(states: seq<State>, labels: seq<Label>, n: nat)
    requires IsRun(states, labels) && n <= |labels|
    ensures forall i :: 0 <= i <= n ==> LogInv(states[i])
  {
    if n > 0 {
      NeverLostInLog(states, labels, n - 1);
      LogInvStep(states[n - 1], labels[n - 1], states[n]);
    }
  }

  /** A move begins only for a live lesson that was never restored, and under a new id;
      a restore only when the log has a tombstone of the lesson and the index holds it
      withdrawn; it retires a copy only of those the log has, none the index knows a
      person corrected and none the index holds withdrawn already. */
  lemma BeginsIff(s: State, c: nat)
    ensures Enabled(s, AppendCopy(c)) <==> s.pc == Idle && s.index.live && !s.index.marked && Copied(c) !in s.log
    ensures Enabled(s, AppendBack) <==> s.pc == Idle && Gone in s.log && !s.index.live
    ensures Enabled(s, AppendRetire(c)) <==>
            && s.pc == Retiring && Copied(c) in s.log && c !in s.index.edited
            && (c in s.index.copies ==> c in s.index.liveCopies)
  {
  }

  // ---- Nor does the index, if a restore meets no tombstone it has yet to see,
  // or leaves a copy. ----

  predicate NoGonePending(s: State) {
    forall k :: k in s.pending && k < |s.log| ==> s.log[k] != Gone
  }

  /** A live copy the index knows a person corrected, and nothing withdraws. */
  predicate Cherished(log: seq<Event>, x: Index, c: nat) {
    c in x.liveCopies && c in x.edited && CopyGone(c) !in log
  }

  ghost predicate SomeCherished(s: State) {
    exists c :: Cherished(s.log, s.index, c)
  }

  /** A copy is retired only when the catch-up the restore began with has seen
      every tombstone of the lesson, or some copy stays. */
  ghost predicate Informed(s: State, l: Label) {
    l.AppendRetire? ==> NoGonePending(s) || SomeCherished(s)
  }

  ghost predicate Retired(s: State) {
    exists c :: CopyGone(c) in s.log
  }

  /** Until a copy is retired every copy the index knows is live, and it knows
      one as soon as the lesson has a tombstone.  Once one is retired the lesson
      is live to stay, or some copy is. */
  ghost predicate IndexInv(s: State) {
    && s.index.liveCopies <= s.index.copies
    && (forall k :: k in s.pending ==> k < |s.log|)
    && (forall c :: c in s.index.copies ==> Copied(c) in s.log)
    && (s.index.marked ==> !Moving(s.pc))
    && (s.pc.CopyIndexed? ==> s.pc.c in s.index.copies)
    && (s.pc.Retiring? || s.pc.RetireAppended? ==> s.index.live && s.index.marked)
    && (s.pc.BackAppended? ==> Gone in s.log)
    && (!s.index.live ==> Gone in s.log)
    && (Gone in s.log ==> s.index.copies != {})
    && (!Retired(s) ==> s.index.liveCopies == s.index.copies)
    && (Retired(s) ==> s.index.marked)
    && (Retired(s) && !SomeCherished(s) ==> s.index.live && NoGonePending(s))
  }

  predicate Moving(pc: Pc) {
    pc.CopyAppended? || pc.CopyIndexed? || pc.GoneAppended?
  }

  lemma IndexInvKept(s: State)
    requires IndexInv(s)
    ensures KeptInIndex(s.index)
  {
    if SomeCherished(s) {
      var c :| Cherished(s.log, s.index, c);
    }
  }

  lemma RetiredGrows(s: State, e: Event)
    ensures Retired(Append(s, e)) <==> Retired(s) || e.CopyGone?
    ensures Gone in Append(s, e).log <==> Gone in s.log || e.Gone?
    ensures NoGonePending(s) && !e.Gone? ==> NoGonePending(Append(s, e))
  {
    var t := Append(s, e);
    forall c
      ensures CopyGone(c) in t.log <==> CopyGone(c) in s.log || e == CopyGone(c)
    {
    }
    if e.CopyGone? {
      assert CopyGone(e.c) in t.log;
    }
    if Retired(s) {
      var c :| CopyGone(c) in s.log;
      assert CopyGone(c) in t.log;
    }
    assert t.log[|s.log|] == e;
  }

  lemma SeeKeeps(s: State, k: nat)
    requires IndexInv(s) && k in s.pending && k < |s.log|
    requires s.log[k].Back? ==> !Moving(s.pc)
    requires s.log[k].Gone? ==> !s.pc.Retiring? && !s.pc.RetireAppended?
    ensures IndexInv(See(s, k))
  {
    var t := See(s, k);
    assert Retired(t) <==> Retired(s);
    if c :| Cherished(s.log, s.index, c) {
      assert Cherished(t.log, t.index, c);
    }
    assert s.log[k] in s.log;
    match s.log[k]
    case CopyGone(c) => assert Retired(s);
    case _ =>
  }

  lemma AppendKeeps(s: State, e: Event)
    requires IndexInv(s)
    requires e.Gone? ==> s.index.copies != {} && !Retired(s)
    requires e.CopyGone? ==> s.index.live && s.index.marked && e.c !in s.index.edited
    requires e.CopyGone? ==> NoGonePending(s) || SomeCherished(s)
    ensures IndexInv(Append(s, e))
  {
    RetiredGrows(s, e);
    if c :| Cherished(s.log, s.index, c) {
      assert Cherished(s.log + [e], s.index, c);
    }
  }

  /** The line a process appended is there for it to index. */
  predicate InHand(s: State) {
    match s.pc
    case CopyAppended(c, at) => at in s.pending && Wrote(s, at, Copied(c))
    case GoneAppended(c, at) => at in s.pending && Wrote(s, at, Gone)
    case BackAppended(at) => at in s.pending && Wrote(s, at, Back)
    case RetireAppended(c, at) => at in s.pending && Wrote(s, at, CopyGone(c))
    case _ => true
  }

  lemma InHandStep(s: State, l: Label, t: State)
    requires IndexInv(s) && InHand(s) && Next(s, l, t)
    ensures InHand(t)
  {
  }

  lemma IndexInvStep(s: State, l: Label, t: State)
    requires IndexInv(s) && InHand(s) && Next(s, l, t) && Informed(s, l)
    ensures IndexInv(t)
  {
    match l
    case AppendCopy(c) => AppendKeeps(s, Copied(c));
    case IndexCopy => SeeKeeps(s, s.pc.at);
    case AppendGone => AppendKeeps(s, Gone);
    case IndexGone => SeeKeeps(s, s.pc.at);
    case AppendBack => AppendKeeps(s, Back);
    case IndexBack => SeeKeeps(s, s.pc.at);
    case AppendRetire(c) => AppendKeeps(s, CopyGone(c));
    case IndexRetire => SeeKeeps(s, s.pc.at);
    case EndRestore =>
    case Die =>
    case CatchUp(k) => SeeKeeps(s, k);
    case Edit(c, indexed) =>
      AppendKeeps(s, Edited(c));
      if indexed {
        SeeKeeps(Append(s, Edited(c)), |s.log|);
      }
  }

  ghost predicate AllInformed(states: seq<State>, labels: seq<Label>)
    requires |states| == |labels| + 1
  {
    forall i :: 0 <= i < |labels| ==> Informed(states[i], labels[i])
  }

  /** In every history in which a restore retires a copy only with no tombstone of
      the lesson waiting to be indexed, or with another copy staying, the index
      too always has the lesson live or a live copy of it. */
  lemma {:induction false} NeverLostInIndex(states: seq<State>, labels: seq<Label>, n: nat)
    requires IsRun(states, labels) && AllInformed(states, labels) && n <= |labels|
    ensures forall i :: 0 <= i <= n ==> IndexInv(states[i]) && InHand(states[i]) && KeptInIndex(states[i].index)
  {
    if n > 0 {
      NeverLostInIndex(states, labels, n - 1);
      InHandStep(states[n - 1], labels[n - 1], states[n]);
      IndexInvStep(states[n - 1], labels[n - 1], states[n]);
    }
    IndexInvKept(states[n]);
  }

  // ---- A tombstone seen too late loses the lesson from the index. ----

  // A history that does it: the process dies between appending the first
  // tombstone and indexing it, the lesson is moved again before a catch-up gets
  // there, a restore retires both copies, and then the catch-up comes.

  const LATE_LOG := [Copied(1), Gone, Copied(2), Gone, Back, CopyGone(1), CopyGone(2)]

  function LateIndex(live: bool, copies: set<nat>, liveCopies: set<nat>, marked: bool): Index {
    Index(live, copies, liveCopies, marked, {})
  }

  function LateState(i: nat): State {
    match i
    case 0 => START
    case 1 => State(LATE_LOG[..1], {0}, LateIndex(true, {}, {}, false), CopyAppended(1, 0))
    case 2 => State(LATE_LOG[..1], {}, LateIndex(true, {1}, {1}, false), CopyIndexed(1))
    case 3 => State(LATE_LOG[..2], {1}, LateIndex(true, {1}, {1}, false), GoneAppended(1, 1))
    case 4 => State(LATE_LOG[..2], {1}, LateIndex(true, {1}, {1}, false), Idle)
    case 5 => State(LATE_LOG[..3], {1, 2}, LateIndex(true, {1}, {1}, false), CopyAppended(2, 2))
    case 6 => State(LATE_LOG[..3], {1}, LateIndex(true, {1, 2}, {1, 2}, false), CopyIndexed(2))
    case 7 => State(LATE_LOG[..4], {1, 3}, LateIndex(true, {1, 2}, {1, 2}, false), GoneAppended(2, 3))
    case 8 => State(LATE_LOG[..4], {1}, LateIndex(false, {1, 2}, {1, 2}, false), Idle)
    case 9 => State(LATE_LOG[..5], {1, 4}, LateIndex(false, {1, 2}, {1, 2}, false), BackAppended(4))
    case 10 => State(LATE_LOG[..5], {1}, LateIndex(true, {1, 2}, {1, 2}, true), Retiring)
    case 11 => State(LATE_LOG[..6], {1, 5}, LateIndex(true, {1, 2}, {1, 2}, true), RetireAppended(1, 5))
    case 12 => State(LATE_LOG[..6], {1}, LateIndex(true, {1, 2}, {2}, true), Retiring)
    case 13 => State(LATE_LOG[..7], {1, 6}, LateIndex(true, {1, 2}, {2}, true), RetireAppended(2, 6))
    case 14 => State(LATE_LOG[..7], {1}, LateIndex(true, {1, 2}, {}, true), Retiring)
    case 15 => State(LATE_LOG[..7], {1}, LateIndex(true, {1, 2}, {}, true), Idle)
    case _ => State(LATE_LOG[..7], {}, LateIndex(false, {1, 2}, {}, true), Idle)
  }

  function LateLabel(i: nat): Label {
    match i
    case 0 => AppendCopy(1)
    case 1 => IndexCopy
    case 2 => AppendGone
    case 3 => Die
    case 4 => AppendCopy(2)
    case 5 => IndexCopy
    case 6 => AppendGone
    case 7 => IndexGone
    case 8 => AppendBack
    case 9 => IndexBack
    case 10 => AppendRetire(1)
    case 11 => IndexRetire
    case 12 => AppendRetire(2)
    case 13 => IndexRetire
    case 14 => EndRestore
    case _ => CatchUp(1)
  }

  lemma LateMoves()
    ensures forall i: nat :: i < 4 ==> Next(LateState(i), LateLabel(i), LateState(i + 1))
  {
  }

  lemma LateMovesAgain()
    ensures forall i: nat :: 4 <= i < 8 ==> Next(LateState(i), LateLabel(i), LateState(i + 1))
  {
    assert LATE_LOG[..2] == [Copied(1), Gone];
  }

  lemma LateRestores()
    ensures forall i: nat :: 8 <= i < 12 ==> Next(LateState(i), LateLabel(i), LateState(i + 1))
  {
    assert LATE_LOG[..4][1] == Gone && LATE_LOG[..5][0] == Copied(1);
  }

  lemma LateEnds()
    ensures forall i: nat :: 12 <= i < 16 ==> Next(LateState(i), LateLabel(i), LateState(i + 1))
  {
    assert LATE_LOG[..6][2] == Copied(2);
  }

  /** A history, somewhere in it a copy retired too early, at whose end the index
      has lost the lesson. */
  ghost predicate LosesTheLesson(states: seq<State>, labels: seq<Label>) {
    IsRun(states, labels) && !AllInformed(states, labels) && !KeptInIndex(states[|labels|].index)
  }

  /** There is one, though a rebuild from the log still finds the lesson. */
  lemma LateTombstoneLosesTheLesson()
    ensures exists states: seq<State>, labels: seq<Label> ::
              LosesTheLesson(states, labels) && KeptInLog(states[|labels|].log)
  {
    var states := seq(17, (i: nat) => LateState(i));
    var labels := seq(16, (i: nat) => LateLabel(i));
    LateMoves();
    LateMovesAgain();
    LateRestores();
    LateEnds();
    assert states[10].log[1] == Gone;
    assert !Informed(states[10], labels[10]);
    NeverLostInLog(states, labels, 16);
    assert LosesTheLesson(states, labels);
  }
}
