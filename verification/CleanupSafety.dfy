/** What every history of cleanup invocations keeps. */
module CleanupSafety {
  import opened Basics
  import opened Cleanup

  // ---- Positions. ----

  predicate SamePlace(c: Cursor, d: Cursor) {
    c.project == d.project && c.labelling == d.labelling && c.after == d.after
  }

  predicate Earlier(c: Cursor, d: Cursor) {
    || c.project < d.project
    || (c.project == d.project && !c.labelling && d.labelling)
    || (c.project == d.project && c.labelling == d.labelling && c.after < d.after)
  }

  /** Further on, or as far with more failures. */
  predicate Advanced(c: Cursor, d: Cursor) {
    Earlier(c, d) || (SamePlace(c, d) && c.fails < d.fails)
  }

  predicate NotBehind(c: Cursor, d: Cursor) {
    Earlier(c, d) || (SamePlace(c, d) && c.fails <= d.fails)
  }

  /** The cursor in hand is no way behind the saved one, nor that behind the
      one the pass began with; three failures never stand. */
  predicate Ordered(p: Pass, begun: Option<Cursor>) {
    && (p.phase.Looking? ==> p.cursor.labelling)
    && (p.flagged ==> p.phase.Stopped?)
    && p.cursor.fails < 3
    && (p.saved.Some? ==> NotBehind(p.saved.value, p.cursor) && p.saved.value.fails < 3)
    && (begun.Some? ==> p.saved.Some? || p.flagged)
    && (begun.Some? && p.saved.Some? ==> NotBehind(begun.value, p.saved.value))
    && (p.saved.None? && !p.flagged ==> begun.None?)
  }

  lemma IdsAreFurther(turn: Turn, after: nat)
    ensures forall k :: 0 <= k < |Ids(turn, after)| ==> Ids(turn, after)[k] > after
  {
  }

  lemma OrderedStep(p: Pass, projects: seq<nat>, turn: Turn, begun: Option<Cursor>)
    requires Ordered(p, begun) && !p.phase.Stopped?
    ensures Ordered(Step(p, projects, turn), begun)
    ensures NotBehind(p.cursor, Step(p, projects, turn).cursor)
  {
    match p.phase
    case Arriving => OrderedArrive(p, projects, turn, begun);
    case Looking => OrderedLook(p, turn, begun);
  }

  lemma OrderedArrive(p: Pass, projects: seq<nat>, turn: Turn, begun: Option<Cursor>)
    requires Ordered(p, begun) && p.phase.Arriving?
    ensures Ordered(Arrive(p, projects, turn), begun) && NotBehind(p.cursor, Arrive(p, projects, turn).cursor)
  {
  }

  lemma OrderedLook(p: Pass, turn: Turn, begun: Option<Cursor>)
    requires Ordered(p, begun) && p.phase.Looking?
    ensures Ordered(Look(p, turn), begun) && NotBehind(p.cursor, Look(p, turn).cursor)
  {
    var ids := Ids(turn, p.cursor.after);
    IdsAreFurther(turn, p.cursor.after);
    if Look(p, turn) == Finish(p, turn) {
      OrderedFinish(p, turn, begun);
    } else if ids != [] && turn.kept > 0 {
      OrderedAsk(p, turn, ids[Min(turn.kept, |ids|) - 1], begun);
    }
  }

  lemma OrderedFinish(p: Pass, turn: Turn, begun: Option<Cursor>)
    requires Ordered(p, begun) && p.phase.Looking?
    ensures Ordered(Finish(p, turn), begun) && Finish(p, turn).cursor == p.cursor
  {
  }

  /** Whether the answer is usable or not, the cursor after it is further on, or
      as far with one failure more. */
  lemma OrderedAsk(p: Pass, turn: Turn, last: nat, begun: Option<Cursor>)
    requires Ordered(p, begun) && p.phase.Looking? && last > p.cursor.after
    ensures Ordered(Ask(p, turn, last), begun) && NotBehind(p.cursor, Ask(p, turn, last).cursor)
  {
    var counted := Counted(p.cursor, turn);
    assert SamePlace(p.cursor, counted) && counted.fails == p.cursor.fails;
    var judged := Judged(counted, turn.usable, last);
    assert judged.fails < 3 && NotBehind(p.cursor, judged);
  }

  predicate Savable(saved: Option<Cursor>) {
    saved.Some? ==> saved.value.fails < 3
  }

  lemma {:induction false} OrderedRun(p: Pass, projects: seq<nat>, turns: seq<Turn>, begun: Option<Cursor>)
    requires Ordered(p, begun)
    ensures forall n :: 0 <= n <= |turns| ==> Ordered(Run(p, projects, turns[..n]), begun)
    decreases |turns|
  {
    if turns != [] {
      if !p.phase.Stopped? {
        OrderedStep(p, projects, turns[0], begun);
      }
      OrderedRun(Step(p, projects, turns[0]), projects, turns[1..], begun);
    }
    forall n | 0 < n <= |turns|
      ensures Ordered(Run(p, projects, turns[..n]), begun)
    {
      assert turns[..n][0] == turns[0] && turns[..n][1..] == turns[1..][..n - 1];
    }
  }

  // ---- Histories of invocations. ----

  datatype Invocation = Invocation(projects: seq<nat>, rows: nat, turns: seq<Turn>)

  datatype Kept = Kept(saved: Option<Cursor>, flagged: bool, runs: nat)

  /** Once the flag is set the cleanup is not begun again. */
  function Next(k: Kept, i: Invocation): Kept {
    if k.flagged then k
    else
      var end := Run(Begin(k.saved, i.rows), i.projects, i.turns);
      Kept(end.saved, end.flagged, k.runs + end.runs)
  }

  function History(h: seq<Invocation>): Kept {
    if h == [] then Kept(None, false, 0) else Next(History(h[..|h| - 1]), h[|h| - 1])
  }

  lemma {:induction false} HistorySavable(h: seq<Invocation>)
    ensures Savable(History(h).saved)
  {
    if h != [] {
      var n := |h| - 1;
      HistorySavable(h[..n]);
      OrderedRun(Begin(History(h[..n]).saved, h[n].rows), h[n].projects, h[n].turns, History(h[..n]).saved);
      assert h[n].turns[..|h[n].turns|] == h[n].turns;
    }
  }

  /** Over any history, whatever the models answer and wherever the process
      dies, the saved position never moves back; at one place the failures only
      grow, and never to three. */
  lemma {:induction false} PositionNeverMovesBack(h: seq<Invocation>, i: nat)
    requires i <= |h| && History(h[..i]).saved.Some?
    ensures History(h).flagged
            || (History(h).saved.Some? && NotBehind(History(h[..i]).saved.value, History(h).saved.value)
                && History(h).saved.value.fails < 3)
    decreases |h|
  {
    HistorySavable(h);
    if i == |h| {
      assert h[..i] == h;
    } else {
      var n := |h| - 1;
      assert h[..n][..i] == h[..i];
      PositionNeverMovesBack(h[..n], i);
      HistorySavable(h[..n]);
      OrderedRun(Begin(History(h[..n]).saved, h[n].rows), h[n].projects, h[n].turns, History(h[..n]).saved);
      assert h[n].turns[..|h[n].turns|] == h[n].turns;
    }
  }

  // ---- Every run that is heard out gets somewhere. ----

  /** The cursors from which a batch was sent to the ladder and the outcome saved. */
  function Asked(p: Pass, projects: seq<nat>, turns: seq<Turn>): seq<Cursor>
    decreases |turns|
  {
    if turns == [] then []
    else
      var q := Step(p, projects, turns[0]);
      (if q.runs > p.runs && turns[0].fate.Lives? then [p.cursor] else []) + Asked(q, projects, turns[1..])
  }

  /** Each is further on than the one before, none at three failures, and the
      saved cursor - which is there once one was heard - beyond them all. */
  predicate Climbs(asked: seq<Cursor>, saved: Option<Cursor>, flagged: bool) {
    forall i :: 0 <= i < |asked| ==>
      && asked[i].fails < 3
      && (forall j :: i < j < |asked| ==> Advanced(asked[i], asked[j]))
      && (if saved.Some? then Advanced(asked[i], saved.value) else flagged)
  }

  predicate AllFrom(c: Cursor, asked: seq<Cursor>) {
    forall i :: 0 <= i < |asked| ==> NotBehind(c, asked[i])
  }

  lemma RunAdvances(p: Pass, projects: seq<nat>, turn: Turn, begun: Option<Cursor>)
    requires Ordered(p, begun)
    requires Step(p, projects, turn).runs > p.runs && turn.fate.Lives?
    ensures var q := Step(p, projects, turn); q.saved == Some(q.cursor) && Advanced(p.cursor, q.cursor)
  {
    IdsAreFurther(turn, p.cursor.after);
  }

  lemma {:induction false} AskedClimbs(p: Pass, projects: seq<nat>, turns: seq<Turn>, begun: Option<Cursor>)
    requires Ordered(p, begun)
    ensures AllFrom(p.cursor, Asked(p, projects, turns))
    ensures Climbs(Asked(p, projects, turns), Run(p, projects, turns).saved, Run(p, projects, turns).flagged)
    decreases |turns|
  {
    if turns != [] {
      var q, rest := Step(p, projects, turns[0]), turns[1..];
      if p.phase.Stopped? {
        NothingAskedAfter(q, projects, rest);
      } else {
        OrderedStep(p, projects, turns[0], begun);
        AskedClimbs(q, projects, rest, begun);
        FromFurther(p.cursor, q.cursor, Asked(q, projects, rest));
        if q.runs > p.runs && turns[0].fate.Lives? {
          RunAdvances(p, projects, turns[0], begun);
          OrderedRun(q, projects, rest, Some(q.cursor));
          assert rest[..|rest|] == rest;
          var end := Run(q, projects, rest);
          ClimbFirst(p.cursor, q.cursor, Asked(q, projects, rest), end.saved, end.flagged);
        } else {
          assert [] + Asked(q, projects, rest) == Asked(q, projects, rest);
        }
      }
    }
  }

  lemma FromFurther(c: Cursor, d: Cursor, asked: seq<Cursor>)
    requires NotBehind(c, d) && AllFrom(d, asked)
    ensures AllFrom(c, asked) && AllFrom(c, [c] + asked)
  {
  }

  lemma ClimbFirst(c: Cursor, d: Cursor, asked: seq<Cursor>, saved: Option<Cursor>, flagged: bool)
    requires c.fails < 3 && Advanced(c, d) && AllFrom(d, asked) && Climbs(asked, saved, flagged)
    requires if saved.Some? then NotBehind(d, saved.value) else flagged
    ensures Climbs([c] + asked, saved, flagged)
  {
  }

  lemma {:induction false} NothingAskedAfter(p: Pass, projects: seq<nat>, turns: seq<Turn>)
    requires p.phase.Stopped?
    ensures Asked(p, projects, turns) == []
    decreases |turns|
  {
    if turns != [] {
      NothingAskedAfter(p, projects, turns[1..]);
    }
  }

  function AskedIn(h: seq<Invocation>): seq<Cursor> {
    if h == [] then []
    else
      var n := |h| - 1;
      var before := History(h[..n]);
      AskedIn(h[..n])
      + (if before.flagged then [] else Asked(Begin(before.saved, h[n].rows), h[n].projects, h[n].turns))
  }

  lemma {:induction false} HistoryClimbs(h: seq<Invocation>)
    ensures Climbs(AskedIn(h), History(h).saved, History(h).flagged)
  {
    if h != [] {
      var n := |h| - 1;
      HistoryClimbs(h[..n]);
      if !History(h[..n]).flagged {
        HistorySavable(h[..n]);
        InvocationClimbs(AskedIn(h[..n]), History(h[..n]), h[n]);
      } else {
        assert AskedIn(h[..n]) + [] == AskedIn(h[..n]);
      }
    }
  }

  /** One invocation more, after those that asked `before`. */
  lemma InvocationClimbs(before: seq<Cursor>, k: Kept, i: Invocation)
    requires Climbs(before, k.saved, k.flagged) && !k.flagged && Savable(k.saved)
    ensures Climbs(before + Asked(Begin(k.saved, i.rows), i.projects, i.turns), Next(k, i).saved, Next(k, i).flagged)
  {
    var p := Begin(k.saved, i.rows);
    var more, end := Asked(p, i.projects, i.turns), Run(p, i.projects, i.turns);
    AskedClimbs(p, i.projects, i.turns, k.saved);
    OrderedRun(p, i.projects, i.turns, k.saved);
    assert i.turns[..|i.turns|] == i.turns;
    if k.saved.Some? {
      SavedStays(p, i.projects, i.turns);
      ClimbOn(before, k.saved.value, more, end.saved, end.flagged);
    } else {
      assert before == [] by {
        if before != [] {
          NonEmptyHasMember(before);
        }
      }
      assert before + more == more;
    }
  }

  lemma ClimbOn(before: seq<Cursor>, c: Cursor, more: seq<Cursor>, saved: Option<Cursor>, flagged: bool)
    requires Climbs(before, Some(c), false) && Climbs(more, saved, flagged) && AllFrom(c, more)
    requires if saved.Some? then NotBehind(c, saved.value) else flagged
    ensures Climbs(before + more, saved, flagged)
  {
  }

  lemma SavedStep(p: Pass, projects: seq<nat>, turn: Turn)
    ensures var q := Step(p, projects, turn); p.saved.Some? ==> q.saved.Some? || (q.flagged && q.phase.Stopped?)
  {
  }

  lemma {:induction false} SavedStays(p: Pass, projects: seq<nat>, turns: seq<Turn>)
    ensures p.saved.Some? ==> Run(p, projects, turns).saved.Some? || Run(p, projects, turns).flagged
    decreases |turns|
  {
    if turns != [] {
      SavedStep(p, projects, turns[0]);
      SavedStays(Step(p, projects, turns[0]), projects, turns[1..]);
      StoppedStays(Step(p, projects, turns[0]), projects, turns[1..]);
    }
  }

  /** Over any history a batch at one place is asked about at most three times:
      the third unusable answer passes it over, a usable one moves on. */
  lemma ThreeTriesAtOnePlace(h: seq<Invocation>, i: nat)
    requires i + 3 < |AskedIn(h)|
    ensures Earlier(AskedIn(h)[i], AskedIn(h)[i + 3])
  {
    HistoryClimbs(h);
    var a := AskedIn(h);
    assert Advanced(a[i], a[i + 1]) && Advanced(a[i + 1], a[i + 2]) && Advanced(a[i + 2], a[i + 3]);
  }

  // ---- No entry is passed over unseen. ----

  lemma {:induction false} BeyondHas(stock: seq<nat>, after: nat, x: nat)
    ensures x in Beyond(stock, after) <==> x in stock && x > after
  {
    if stock != [] {
      BeyondHas(stock[1..], after, x);
      assert stock == [stock[0]] + stock[1..];
    }
  }

  lemma {:induction false} BeyondAscends(stock: seq<nat>, after: nat)
    requires Ascending(stock)
    ensures Ascending(Beyond(stock, after))
  {
    if stock != [] {
      var rest := Beyond(stock[1..], after);
      BeyondAscends(stock[1..], after);
      forall k | 0 <= k < |rest|
        ensures rest[k] > stock[0]
      {
        BeyondHas(stock[1..], after, rest[k]);
        assert rest[k] in rest;
        var j :| 0 <= j < |stock[1..]| && stock[1..][j] == rest[k];
        assert stock[0] < stock[1 + j];
      }
    }
  }

  /** How many of these entries lie beyond `after`, up to `x`. */
  function Between(stock: seq<nat>, after: nat, x: nat): nat {
    if stock == [] then 0
    else Between(stock[..|stock| - 1], after, x) + (if after < stock[|stock| - 1] <= x then 1 else 0)
  }

  lemma {:induction false} BetweenFront(stock: seq<nat>, after: nat, x: nat)
    requires stock != []
    ensures Between(stock, after, x) == (if after < stock[0] <= x then 1 else 0) + Between(stock[1..], after, x)
  {
    if |stock| == 1 {
      assert stock[..0] == [] && stock[1..] == [];
    } else {
      var front := stock[..|stock| - 1];
      BetweenFront(front, after, x);
      assert front[1..] == stock[1..][..|stock[1..]| - 1];
    }
  }

  lemma {:induction false} BetweenNone(stock: seq<nat>, after: nat, x: nat)
    requires forall k :: 0 <= k < |stock| ==> stock[k] > x
    ensures Between(stock, after, x) == 0
  {
    if stock != [] {
      BetweenNone(stock[..|stock| - 1], after, x);
    }
  }

  /** An entry's place among those beyond the cursor. */
  lemma {:induction false} PlaceIs(stock: seq<nat>, after: nat, k: nat)
    requires Ascending(stock) && k < |Beyond(stock, after)|
    ensures Between(stock, after, Beyond(stock, after)[k]) == k + 1
  {
    var all, x := Beyond(stock, after), Beyond(stock, after)[k];
    BetweenFront(stock, after, x);
    BeyondAscends(stock, after);
    if stock[0] > after && k == 0 {
      BetweenNone(stock[1..], after, x);
    } else if stock[0] > after {
      assert all == [stock[0]] + Beyond(stock[1..], after);
      assert all[0] < all[k];
      PlaceIs(stock[1..], after, k - 1);
    } else {
      PlaceIs(stock[1..], after, k);
    }
  }

  /** The turn gets as far as reading the project's entries: the process lives,
      fewer than thirty calls are spent, fewer than five of them here, and there
      is time. */
  predicate Reads(p: Pass, turn: Turn) {
    var spent := Max(turn.rows, p.cursor.calls);
    !turn.fate.DiesFirst? && spent < 30 && spent < p.base + 5 && !turn.timeUp
  }

  /** An entry whose place is `n` is done with: it could not be read, or it was in
      the batch that was sent and the answer was usable, or the third in a row that
      was not. */
  predicate IsDone(p: Pass, turn: Turn, n: nat) {
    Reads(p, turn)
    && n <= 40
    && (turn.kept == 0
        || (n <= turn.kept && turn.canAnswer && turn.fate.Lives? && (turn.usable || p.cursor.fails + 1 >= 3)))
  }

  lemma CursorAfterLook(p: Pass, turn: Turn)
    requires p.phase.Looking? && Ids(turn, p.cursor.after) != []
    ensures var q, ids := Look(p, turn), Ids(turn, p.cursor.after);
            var n := if turn.kept == 0 then |ids| else Min(turn.kept, |ids|);
            q.cursor.after == if IsDone(p, turn, n) then ids[n - 1] else p.cursor.after
  {
  }

  /** Exactly what a turn at a project passes over: of the entries beyond the
      cursor those that are done with, by their place, and no other. */
  lemma PassedIff(p: Pass, projects: seq<nat>, turn: Turn, x: nat)
    requires p.phase.Looking? && Ascending(turn.stock) && x in turn.stock && x > p.cursor.after
    ensures x <= Step(p, projects, turn).cursor.after <==> IsDone(p, turn, Between(turn.stock, p.cursor.after, x))
  {
    var all := Beyond(turn.stock, p.cursor.after);
    BeyondHas(turn.stock, p.cursor.after, x);
    BeyondAscends(turn.stock, p.cursor.after);
    var ids := Ids(turn, p.cursor.after);
    assert ids == all[..Min(|all|, 40)];
    var k :| 0 <= k < |all| && all[k] == x;
    PlaceIs(turn.stock, p.cursor.after, k);
    CursorAfterLook(p, turn);
    var n := if turn.kept == 0 then |ids| else Min(turn.kept, |ids|);
    assert ids[n - 1] == all[n - 1];
    if k < n - 1 {
      assert all[k] < all[n - 1];
    } else if k > n - 1 {
      assert all[n - 1] < all[k];
    }
  }

  /** One turn makes one ladder run exactly when it reads entries beyond the
      cursor that have a batch and a model that could answer. */
  lemma RunsIff(p: Pass, projects: seq<nat>, turn: Turn)
    requires p.phase.Looking?
    ensures Step(p, projects, turn).runs == p.runs +
              if Reads(p, turn) && turn.kept > 0 && turn.canAnswer
                 && exists x :: x in turn.stock && x > p.cursor.after then 1 else 0
  {
    NoneBeyondIff(turn, p.cursor.after);
  }

  lemma NoneBeyondIff(turn: Turn, after: nat)
    ensures Ids(turn, after) == [] <==> !(exists x :: x in turn.stock && x > after)
  {
    var all := Beyond(turn.stock, after);
    NonEmptyHasMember(all);
    forall x: nat
      ensures x in all <==> x in turn.stock && x > after
    {
      BeyondHas(turn.stock, after, x);
    }
  }

  /** A turn leaves the project exactly when it reads and finds none beyond the
      cursor. */
  lemma LeavesIff(p: Pass, projects: seq<nat>, turn: Turn)
    requires p.phase.Looking?
    ensures var q := Step(p, projects, turn);
            var none := Reads(p, turn) && !exists x :: x in turn.stock && x > p.cursor.after;
            (q.phase.Arriving? <==> none) && q.at == p.at + (if none then 1 else 0)
  {
    NoneBeyondIff(turn, p.cursor.after);
  }

  /** A turn at a project passes over no entry beyond the cursor but those it
      could not read, and those a ladder run was sent whose answer was usable or
      the third in a row that was not; and it leaves the project only when none is
      beyond the cursor. */
  lemma NothingPassedUnseen(p: Pass, projects: seq<nat>, turn: Turn, x: nat)
    requires p.phase.Looking? && Ascending(turn.stock) && x in turn.stock && x > p.cursor.after
    ensures var q, n := Step(p, projects, turn), Between(turn.stock, p.cursor.after, x);
            && !q.phase.Arriving?
            && (x <= q.cursor.after ==>
                  && n <= 40
                  && (turn.kept == 0
                      || (n <= turn.kept && q.runs == p.runs + 1 && (turn.usable || p.cursor.fails + 1 >= 3))))
  {
    PassedIff(p, projects, turn, x);
    RunsIff(p, projects, turn);
    LeavesIff(p, projects, turn);
  }

  /** The turn sends a batch to the ladder. */
  predicate Sends(p: Pass, turn: Turn) {
    Reads(p, turn) && turn.kept > 0 && turn.canAnswer && exists x :: x in turn.stock && x > p.cursor.after
  }

  /** What a turn at a project counts and saves.  A batch sent counts as one call more,
      or as many as the ledger then shows; one unusable answer more is held against
      the batch, until a usable one or the third.  If the process lives to hear the
      answer the place is saved; otherwise only the end of the cleanup touches what is
      saved. */
  lemma CountsAndSaves(p: Pass, projects: seq<nat>, turn: Turn)
    requires p.phase.Looking?
    ensures var q := Step(p, projects, turn);
            var heard := Sends(p, turn) && turn.fate.Lives?;
            && q.cursor.project == p.cursor.project && q.cursor.labelling == p.cursor.labelling
            && q.cursor.calls ==
               (if !Sends(p, turn) then p.cursor.calls
                else Max(Max(turn.rows + turn.left, p.cursor.calls), Max(turn.rows, p.cursor.calls) + 1))
            && q.cursor.fails == (if !heard then p.cursor.fails
                                  else if turn.usable || p.cursor.fails + 1 >= 3 then 0 else p.cursor.fails + 1)
            && q.saved == (if heard then Some(q.cursor)
                           else if !IsOver(p, projects, turn) || turn.fate.DiesFirst? then p.saved
                           else if turn.fate.Lives? then None else Some(p.cursor))
  {
    NoneBeyondIff(turn, p.cursor.after);
  }

  /** And when it stops: for an error or a death, for its calls, its time or a want of
      models, and after an unusable answer. */
  lemma StopsIff(p: Pass, projects: seq<nat>, turn: Turn)
    requires p.phase.Looking?
    ensures var some := exists x :: x in turn.stock && x > p.cursor.after;
            Step(p, projects, turn).phase.Stopped? <==>
            || !Reads(p, turn)
            || (some && turn.kept > 0 && (!turn.canAnswer || !turn.fate.Lives? || !turn.usable))
  {
    NoneBeyondIff(turn, p.cursor.after);
  }

  /** Coming to a project: one done in an earlier invocation is passed over; one not yet
      begun is gone through from its first entry; the one the cursor names from where
      it stands.  Its labelling begins, and that is saved, once its duplicates are done. */
  lemma ArrivesIff(p: Pass, projects: seq<nat>, turn: Turn)
    requires p.phase.Arriving? && p.at < |projects|
    ensures var q, project := Step(p, projects, turn), projects[p.at];
            var same := project == p.cursor.project;
            if p.cursor.project != 0 && project < p.cursor.project then q == p.(at := p.at + 1)
            else
              && q.at == p.at && q.cursor.project == project && q.runs == p.runs && q.flagged == p.flagged
              && q.cursor.after == (if same then p.cursor.after else 0)
              && q.cursor.fails == (if same then p.cursor.fails else 0)
              && q.cursor.calls == p.cursor.calls
              && q.phase == (if turn.fate.Lives? then Looking else Stopped)
              && q.cursor.labelling == (turn.fate.Lives? || (same && p.cursor.labelling))
              && q.saved == (if turn.fate.Lives? && !(same && p.cursor.labelling) then Some(q.cursor) else p.saved)
  {
  }

  // ---- When it is over. ----

  /** The cleanup is over: its calls are spent, or every project was gone through. */
  predicate IsOver(p: Pass, projects: seq<nat>, turn: Turn) {
    if p.phase.Looking? then Max(turn.rows, p.cursor.calls) >= 30 else p.phase.Arriving? && p.at >= |projects|
  }

  /** One turn sets the flag exactly when the cleanup is over, and the process
      lives to set it; it clears the saved cursor only then. */
  lemma FlagIff(p: Pass, projects: seq<nat>, turn: Turn)
    requires !p.flagged && !p.phase.Stopped?
    ensures var q := Step(p, projects, turn);
            && (q.flagged <==> IsOver(p, projects, turn) && (turn.fate.Lives? || turn.fate.DiesLate?))
            && (p.saved.Some? && q.saved.None? ==> q.flagged)
  {
  }

  /** The turn leaves this project: it was done in an earlier invocation, or there
      is nothing unlabelled beyond the cursor. */
  predicate Leaves(p: Pass, projects: seq<nat>, turn: Turn) {
    && p.at < |projects|
    && (if p.phase.Looking? then Reads(p, turn) && !exists x :: x in turn.stock && x > p.cursor.after
        else p.phase.Arriving? && p.cursor.project != 0 && projects[p.at] < p.cursor.project)
  }

  lemma AtIff(p: Pass, projects: seq<nat>, turn: Turn)
    requires p.at <= |projects| && (p.phase.Looking? ==> p.at < |projects|)
    ensures var q := Step(p, projects, turn);
            && q.at == p.at + (if Leaves(p, projects, turn) then 1 else 0)
            && q.at <= |projects| && (q.phase.Looking? ==> q.at < |projects|)
  {
    if p.phase.Looking? {
      LeavesIff(p, projects, turn);
    }
  }

  /** Some turn of the run left this project, standing at it. */
  ghost predicate LeftAt(p: Pass, projects: seq<nat>, turns: seq<Turn>, i: nat) {
    exists n :: 0 <= n < |turns| && Run(p, projects, turns[..n]).at == i
                && Leaves(Run(p, projects, turns[..n]), projects, turns[n])
  }

  ghost predicate OverAt(p: Pass, projects: seq<nat>, turns: seq<Turn>, n: nat)
    requires n < |turns|
  {
    IsOver(Run(p, projects, turns[..n]), projects, turns[n])
  }

  lemma {:induction false} RunPlusOne(p: Pass, projects: seq<nat>, turns: seq<Turn>)
    requires turns != []
    ensures var n := |turns| - 1;
            Run(p, projects, turns) == Step(Run(p, projects, turns[..n]), projects, turns[n])
    decreases |turns|
  {
    var n := |turns| - 1;
    if n > 0 {
      RunPlusOne(Step(p, projects, turns[0]), projects, turns[1..]);
      assert turns[1..][..n - 1] == turns[..n][1..];
    } else {
      assert turns[..0] == [] && turns[1..] == [];
    }
  }

  /** Wherever the walk has got to, it has left every project before. */
  lemma {:induction false} AllLeftBefore(p: Pass, projects: seq<nat>, turns: seq<Turn>, i: nat)
    requires p.at <= |projects| && (p.phase.Looking? ==> p.at < |projects|)
    ensures var end := Run(p, projects, turns);
            && end.at <= |projects| && (end.phase.Looking? ==> end.at < |projects|)
            && (p.at <= i < end.at ==> LeftAt(p, projects, turns, i))
    decreases |turns|
  {
    if turns != [] {
      var n := |turns| - 1;
      var front := turns[..n];
      AllLeftBefore(p, projects, front, i);
      RunPlusOne(p, projects, turns);
      AtIff(Run(p, projects, front), projects, turns[n]);
      if LeftAt(p, projects, front, i) {
        var m :| 0 <= m < |front| && Run(p, projects, front[..m]).at == i
                 && Leaves(Run(p, projects, front[..m]), projects, front[m]);
        assert front[..m] == turns[..m] && front[m] == turns[m];
      }
    }
  }

  /** When an invocation sets the flag, either thirty calls were spent, or every
      project was left by a turn that found nothing unlabelled beyond the cursor,
      or was done before. */
  lemma {:induction false} FlagMeansDone(saved: Option<Cursor>, i: Invocation)
    requires Run(Begin(saved, i.rows), i.projects, i.turns).flagged
    ensures exists n :: 0 <= n < |i.turns| && OverAt(Begin(saved, i.rows), i.projects, i.turns, n)
                        && var last := Run(Begin(saved, i.rows), i.projects, i.turns[..n]);
                           (last.phase.Looking? || forall j: nat :: j < |i.projects| ==>
                              LeftAt(Begin(saved, i.rows), i.projects, i.turns, j))
    decreases |i.turns|
  {
    var p, n := Begin(saved, i.rows), |i.turns| - 1;
    var front := i.(turns := i.turns[..n]);
    var before := Run(p, i.projects, front.turns);
    RunPlusOne(p, i.projects, i.turns);
    if before.flagged {
      FlagMeansDone(saved, front);
      var m :| 0 <= m < n && OverAt(p, i.projects, front.turns, m)
               && var last := Run(p, i.projects, front.turns[..m]);
                  (last.phase.Looking? || forall j: nat :: j < |i.projects| ==> LeftAt(p, i.projects, front.turns, j));
      assert front.turns[..m] == i.turns[..m] && OverAt(p, i.projects, i.turns, m);
      forall j: nat | LeftAt(p, i.projects, front.turns, j)
        ensures LeftAt(p, i.projects, i.turns, j)
      {
        LeftStays(p, i.projects, i.turns, j);
      }
    } else {
      FlagIff(before, i.projects, i.turns[n]);
      assert OverAt(p, i.projects, i.turns, n);
      forall j: nat | j < |i.projects| && before.phase.Arriving?
        ensures LeftAt(p, i.projects, i.turns, j)
      {
        AllLeftBefore(p, i.projects, front.turns, j);
        LeftStays(p, i.projects, i.turns, j);
      }
    }
  }

  lemma LeftStays(p: Pass, projects: seq<nat>, turns: seq<Turn>, j: nat)
    requires turns != [] && LeftAt(p, projects, turns[..|turns| - 1], j)
    ensures LeftAt(p, projects, turns, j)
  {
    var front := turns[..|turns| - 1];
    var m :| 0 <= m < |front| && Run(p, projects, front[..m]).at == j
             && Leaves(Run(p, projects, front[..m]), projects, front[m]);
    assert front[..m] == turns[..m] && front[m] == turns[m];
  }

  // ---- Bounds on ladder runs. ----

  predicate NeverFewer(rows: nat, turns: seq<Turn>) {
    forall k :: 0 <= k < |turns| ==> turns[k].rows >= rows
  }

  predicate FewRuns(p: Pass, rows: nat) {
    && p.runs <= PASS_CALLS
    && p.base <= Max(rows, p.cursor.calls)
    && (p.runs > 0 ==> p.cursor.calls >= p.base + p.runs)
  }

  lemma FewRunsStep(p: Pass, projects: seq<nat>, turn: Turn, rows: nat)
    requires FewRuns(p, rows) && turn.rows >= rows
    ensures FewRuns(Step(p, projects, turn), rows)
  {
  }

  lemma {:induction false} FewRunsKept(p: Pass, projects: seq<nat>, turns: seq<Turn>, rows: nat)
    requires FewRuns(p, rows) && NeverFewer(rows, turns)
    ensures forall n :: 0 <= n <= |turns| ==> FewRuns(Run(p, projects, turns[..n]), rows)
    decreases |turns|
  {
    if turns != [] {
      FewRunsStep(p, projects, turns[0], rows);
      FewRunsKept(Step(p, projects, turns[0]), projects, turns[1..], rows);
    }
    forall n | 0 < n <= |turns|
      ensures FewRuns(Run(p, projects, turns[..n]), rows)
    {
      assert turns[..n][0] == turns[0] && turns[..n][1..] == turns[1..][..n - 1];
    }
  }

  /** One invocation makes at most five ladder runs. */
  lemma FivePerInvocation(saved: Option<Cursor>, i: Invocation)
    requires NeverFewer(i.rows, i.turns)
    ensures Run(Begin(saved, i.rows), i.projects, i.turns).runs <= 5
  {
    FewRunsKept(Begin(saved, i.rows), i.projects, i.turns, i.rows);
    assert i.turns[..|i.turns|] == i.turns;
  }

  /** No run's outcome is lost between the run and its save. */
  predicate NothingLost(p: Pass, projects: seq<nat>, turns: seq<Turn>)
    decreases |turns|
  {
    turns != [] ==>
      var q := Step(p, projects, turns[0]);
      (q.runs > p.runs ==> turns[0].fate.Lives?) && NothingLost(q, projects, turns[1..])
  }

  predicate AllCounted(p: Pass, before: nat) {
    && before + p.runs <= MAX_CALLS
    && before + p.runs <= p.cursor.calls
    && (if p.saved.Some? then before + p.runs <= p.saved.value.calls else p.flagged || before + p.runs == 0)
  }

  lemma AllCountedStep(p: Pass, projects: seq<nat>, turn: Turn, before: nat)
    requires AllCounted(p, before)
    requires Step(p, projects, turn).runs > p.runs ==> turn.fate.Lives?
    ensures AllCounted(Step(p, projects, turn), before)
  {
  }

  lemma {:induction false} AllCountedKept(p: Pass, projects: seq<nat>, turns: seq<Turn>, before: nat)
    requires AllCounted(p, before) && NothingLost(p, projects, turns)
    ensures forall n :: 0 <= n <= |turns| ==> AllCounted(Run(p, projects, turns[..n]), before)
    decreases |turns|
  {
    if turns != [] {
      AllCountedStep(p, projects, turns[0], before);
      AllCountedKept(Step(p, projects, turns[0]), projects, turns[1..], before);
    }
    forall n | 0 < n <= |turns|
      ensures AllCounted(Run(p, projects, turns[..n]), before)
    {
      assert turns[..n][0] == turns[0] && turns[..n][1..] == turns[1..][..n - 1];
    }
  }

  ghost predicate NothingLostIn(h: seq<Invocation>) {
    forall i :: 0 <= i < |h| && !History(h[..i]).flagged ==>
      NothingLost(Begin(History(h[..i]).saved, h[i].rows), h[i].projects, h[i].turns)
  }

  /** A cleanup that loses no run between the run and its save makes at most
      thirty in all, whatever the ledger shows. */
  lemma {:induction false} ThirtyInAll(h: seq<Invocation>)
    requires NothingLostIn(h)
    ensures History(h).runs <= 30
    ensures if History(h).saved.Some? then History(h).runs <= History(h).saved.value.calls
            else History(h).flagged || History(h).runs == 0
  {
    if h != [] {
      var n := |h| - 1;
      assert forall i :: 0 <= i < n ==> h[..n][..i] == h[..i];
      ThirtyInAll(h[..n]);
      var k := History(h[..n]);
      if !k.flagged {
        assert NothingLost(Begin(k.saved, h[n].rows), h[n].projects, h[n].turns);
        AllCountedKept(Begin(k.saved, h[n].rows), h[n].projects, h[n].turns, k.runs);
        assert h[n].turns[..|h[n].turns|] == h[n].turns;
      }
    }
  }

  /** Every run leaves a row, and rows stay: the rows known after these turns. */
  predicate EveryRunLeavesARow(p: Pass, projects: seq<nat>, turns: seq<Turn>, rows: nat)
    decreases |turns|
  {
    turns != [] ==>
      var q := Step(p, projects, turns[0]);
      && turns[0].rows >= rows
      && (q.runs > p.runs ==> turns[0].left > 0)
      && EveryRunLeavesARow(q, projects, turns[1..], RowsAfter(p, q, turns[0]))
  }

  function RowsAfter(p: Pass, q: Pass, turn: Turn): nat {
    if q.runs > p.runs then turn.rows + turn.left else turn.rows
  }

  function RowsEnd(p: Pass, projects: seq<nat>, turns: seq<Turn>, rows: nat): nat
    decreases |turns|
  {
    if turns == [] then rows
    else
      var q := Step(p, projects, turns[0]);
      RowsEnd(q, projects, turns[1..], RowsAfter(p, q, turns[0]))
  }

  lemma {:induction false} RowsBound(p: Pass, projects: seq<nat>, turns: seq<Turn>, rows: nat, before: nat)
    requires EveryRunLeavesARow(p, projects, turns, rows)
    requires before + p.runs <= rows && before + p.runs <= MAX_CALLS
    ensures var end := Run(p, projects, turns);
            before + end.runs <= Min(RowsEnd(p, projects, turns, rows), MAX_CALLS)
    decreases |turns|
  {
    if turns != [] {
      var q := Step(p, projects, turns[0]);
      assert q.runs <= p.runs + 1;
      RowsBound(q, projects, turns[1..], RowsAfter(p, q, turns[0]), before);
    }
  }

  function LedgerAfter(h: seq<Invocation>): nat {
    if h == [] then 0
    else
      var n := |h| - 1;
      if History(h[..n]).flagged then LedgerAfter(h[..n])
      else RowsEnd(Begin(History(h[..n]).saved, h[n].rows), h[n].projects, h[n].turns, h[n].rows)
  }

  ghost predicate LedgerIsKept(h: seq<Invocation>) {
    forall i :: 0 <= i < |h| && !History(h[..i]).flagged ==>
      && h[i].rows >= LedgerAfter(h[..i])
      && EveryRunLeavesARow(Begin(History(h[..i]).saved, h[i].rows), h[i].projects, h[i].turns, h[i].rows)
  }

  /** And when every run leaves a row in the ledger it makes at most thirty
      wherever it dies. */
  lemma {:induction false} ThirtyByTheLedger(h: seq<Invocation>)
    requires LedgerIsKept(h)
    ensures History(h).runs <= 30 && History(h).runs <= LedgerAfter(h)
  {
    if h != [] {
      var n := |h| - 1;
      assert forall i :: 0 <= i < n ==> h[..n][..i] == h[..i];
      ThirtyByTheLedger(h[..n]);
      var k := History(h[..n]);
      if !k.flagged {
        RowsBound(Begin(k.saved, h[n].rows), h[n].projects, h[n].turns, h[n].rows, k.runs);
      }
    }
  }
}
