/** The one-time cleanup: a resumable walk over projects, stages and ids.

    Projects and entries are numbered in the order of their ids; 0 stands for
    the empty id a fresh cursor holds. */
module Cleanup {
  import opened Basics

  const BATCH := 40
  const MAX_CALLS := 30
  const PASS_CALLS := 5

  /** `labelling` is stage `b`. */
  datatype Cursor = Cursor(project: nat, labelling: bool, after: nat, calls: nat, fails: nat)

  /** Where the process may die, or an error leave the pass. */
  datatype Fate = Lives | DiesFirst | DiesMidway | DiesLate

  /** What the world answers while the pass takes one turn: the ledger's rows,
      whether time is up, the project's unlabelled entries in id order, how many
      of the ids read reach the last entry of the batch (0 when none could be
      read), whether a model could answer, the rows its calls leave, and whether
      its answer is usable. */
  datatype Turn = Turn(
    rows: nat, timeUp: bool, stock: seq<nat>, kept: nat, canAnswer: bool, left: nat, usable: bool, fate: Fate)

  /** `runs` counts the ladder runs of this invocation; `base` is the calls it
      began with. */
  datatype Pass = Pass(
    cursor: Cursor, at: nat, saved: Option<Cursor>, flagged: bool, runs: nat, base: nat, phase: Phase)

  datatype Phase = Arriving | Looking | Stopped

  // ---- How much of what was read one prompt takes. ----

  function Sum(sizes: seq<nat>): nat {
    if sizes == [] then 0 else Sum(sizes[..|sizes| - 1]) + sizes[|sizes| - 1]
  }

  /** `fit`: the longest prefix of the entries whose blocks have room, but never
      none of them. */
  method Fit(sizes: seq<nat>, room0: nat) returns (keep: nat)
    ensures keep <= |sizes| && (sizes != [] ==> keep > 0)
    ensures Sum(sizes[..keep]) <= room0 || keep == 1
    ensures keep < |sizes| ==> Sum(sizes[..keep + 1]) > room0
  {
    var room := room0;
    keep := 0;
    while keep < |sizes| && sizes[keep] <= room
      invariant keep <= |sizes| && room >= 0 && room + Sum(sizes[..keep]) == room0
    {
      assert sizes[..keep + 1][..keep] == sizes[..keep];
      room := room - sizes[keep];
      keep := keep + 1;
    }
    if keep < |sizes| {
      assert sizes[..keep + 1][..keep] == sizes[..keep];
    }
    if keep == 0 && sizes != [] {
      keep := 1;
      if 1 < |sizes| {
        assert sizes[..2][..1] == sizes[..1] && sizes[..1][..0] == [];
      }
    }
  }

  // ---- One turn. ----

  /** `id > after`, in order. */
  function Beyond(stock: seq<nat>, after: nat): (r: seq<nat>)
    ensures forall k :: 0 <= k < |r| ==> r[k] > after
  {
    if stock == [] then []
    else (if stock[0] > after then [stock[0]] else []) + Beyond(stock[1..], after)
  }

  function Ids(turn: Turn, after: nat): (r: seq<nat>)
    ensures |r| <= BATCH && forall k :: 0 <= k < |r| ==> r[k] > after
  {
    var all := Beyond(turn.stock, after);
    all[..Min(|all|, BATCH)]
  }

  function Spent(c: Cursor, rows: nat): nat {
    Max(rows, c.calls)
  }

  function Entered(c: Cursor, project: nat): Cursor {
    if project != c.project then Cursor(project, false, 0, c.calls, 0) else c
  }

  function Saved(p: Pass): Pass {
    p.(saved := Some(p.cursor))
  }

  function Stop(p: Pass): Pass {
    p.(phase := Stopped)
  }

  /** Save, set the flag, clear the cursor. */
  function Finish(p: Pass, turn: Turn): Pass {
    match turn.fate
    case DiesFirst => Stop(p)
    case DiesMidway => Stop(Saved(p))
    case DiesLate => Stop(Saved(p).(flagged := true))
    case Lives => Stop(p.(saved := None, flagged := true))
  }

  function Arrive(p: Pass, projects: seq<nat>, turn: Turn): Pass {
    if p.at >= |projects| then Finish(p, turn)
    else if p.cursor.project != 0 && projects[p.at] < p.cursor.project then p.(at := p.at + 1)
    else
      var q := p.(cursor := Entered(p.cursor, projects[p.at]));
      if !turn.fate.Lives? then Stop(q)
      else if q.cursor.labelling then q.(phase := Looking)
      else Saved(q.(cursor := q.cursor.(labelling := true), phase := Looking))
  }

  /** The cursor once the calls of a run are counted. */
  function Counted(c: Cursor, turn: Turn): Cursor {
    c.(calls := Max(Spent(c, turn.rows + turn.left), Spent(c, turn.rows) + 1))
  }

  function Judged(c: Cursor, usable: bool, last: nat): Cursor {
    if usable || c.fails + 1 >= 3 then c.(after := last, fails := 0) else c.(fails := c.fails + 1)
  }

  /** A batch goes to the ladder. */
  function Ask(p: Pass, turn: Turn, last: nat): Pass {
    var q := p.(runs := p.runs + 1, cursor := Counted(p.cursor, turn));
    if !turn.fate.Lives? then Stop(q)
    else
      var r := Saved(q.(cursor := Judged(q.cursor, turn.usable, last)));
      if turn.usable then r else Stop(r)
  }

  function Look(p: Pass, turn: Turn): Pass {
    var spent, ids := Spent(p.cursor, turn.rows), Ids(turn, p.cursor.after);
    if turn.fate.DiesFirst? then Stop(p)
    else if spent >= MAX_CALLS then Finish(p, turn)
    else if SaturatingSub(spent, p.base) >= PASS_CALLS || turn.timeUp then Stop(p)
    else if ids == [] then p.(phase := Arriving, at := p.at + 1)
    else if turn.kept == 0 then p.(cursor := p.cursor.(after := ids[|ids| - 1]))
    else if !turn.canAnswer then Stop(p)
    else Ask(p, turn, ids[Min(turn.kept, |ids|) - 1])
  }

  function Step(p: Pass, projects: seq<nat>, turn: Turn): Pass {
    match p.phase
    case Arriving => Arrive(p, projects, turn)
    case Looking => Look(p, turn)
    case Stopped => p
  }

  /** The process may also simply be gone: the turns run out. */
  function Run(p: Pass, projects: seq<nat>, turns: seq<Turn>): Pass
    decreases |turns|
  {
    if turns == [] then p else Run(Step(p, projects, turns[0]), projects, turns[1..])
  }

  function Begin(saved: Option<Cursor>, rows: nat): Pass {
    var c := if saved.Some? then saved.value else Cursor(0, false, 0, 0, 0);
    Pass(c, 0, saved, false, 0, Spent(c, rows), Arriving)
  }

  // ---- The program. ----

  /** The store's two states of the cleanup. */
  class Store {
    var saved: Option<Cursor>
    var flagged: bool

    constructor ()
      ensures saved == None && !flagged
    {
      saved, flagged := None, false;
    }

    method Save(cursor: Cursor)
      modifies this
      ensures saved == Some(cursor) && flagged == old(flagged)
    {
      saved := Some(cursor);
    }

    method Conclude(cursor: Cursor, turn: Turn)
      modifies this
      ensures forall p: Pass :: p.cursor == cursor && p.saved == old(saved) && p.flagged == old(flagged) ==>
                SameEnd(Finish(p, turn), Found(saved, flagged, p.runs))
    {
      if turn.fate.DiesFirst? {
        return;
      }
      Save(cursor);
      if turn.fate.DiesMidway? {
        return;
      }
      flagged := true;
      if turn.fate.DiesLate? {
        return;
      }
      saved := None;
    }

    /** One turn of the loop over a project's batches. */
    method TakeTurn(ghost p: Pass, c0: Cursor, base: nat, turn: Turn, runs0: nat)
      returns (cursor: Cursor, runs: nat, went: Went)
      requires p == Pass(c0, p.at, saved, flagged, runs0, base, Looking)
      modifies this
      ensures went.Again? ==> Look(p, turn) == Pass(cursor, p.at, saved, flagged, runs, base, Looking)
      ensures went.Onward? ==> Look(p, turn) == Pass(cursor, p.at + 1, saved, flagged, runs, base, Arriving)
      ensures went.Full? ==>
                Look(p, turn) == Finish(p, turn) && p == Pass(cursor, p.at, saved, flagged, runs, base, Looking)
      ensures went.Held? ==> Ends(Look(p, turn), this, runs)
    {
      cursor, runs, went := c0, runs0, Held;
      if turn.fate.DiesFirst? {
        return;
      }
      var spent := Max(turn.rows, cursor.calls);
      if spent >= MAX_CALLS {
        went := Full;
        return;
      }
      if SaturatingSub(spent, base) >= PASS_CALLS || turn.timeUp {
        return;
      }
      var ids := Ids(turn, cursor.after);
      if ids == [] {
        went := Onward;
        return;
      }
      if turn.kept == 0 {
        cursor := cursor.(after := ids[|ids| - 1]);
        went := Again;
        return;
      }
      if !turn.canAnswer {
        return;
      }
      var last := ids[Min(turn.kept, |ids|) - 1];
      runs := runs + 1;
      cursor := cursor.(calls := Max(Max(turn.rows + turn.left, cursor.calls), spent + 1));
      if turn.fate != Lives {
        return;
      }
      if turn.usable {
        cursor := cursor.(after := last, fails := 0);
        went := Again;
      } else {
        cursor := cursor.(fails := cursor.fails + 1);
        if cursor.fails >= 3 {
          cursor := cursor.(after := last, fails := 0);
        }
      }
      Save(cursor);
    }

    /** The loop over one project's batches, from turn `t0`. */
    method Walk(ghost p0: Pass, c0: Cursor, base: nat, ghost projects: seq<nat>, turns: seq<Turn>, t0: nat, runs0: nat)
      returns (cursor: Cursor, t: nat, runs: nat, went: Went)
      requires t0 <= |turns| && p0 == Pass(c0, p0.at, saved, flagged, runs0, base, Looking)
      modifies this
      ensures t0 <= t <= |turns| && !went.Again?
      ensures var p := Pass(cursor, p0.at, saved, flagged, runs, base, Looking);
              Leads(p0, projects, turns[t0..], p, turns[t..], went)
    {
      cursor, t, runs, went := c0, t0, runs0, Again;
      ghost var end := Run(p0, projects, turns[t0..]);
      while went.Again?
        invariant t0 <= t <= |turns| && went.Again?
        invariant end == Run(Pass(cursor, p0.at, saved, flagged, runs, base, Looking), projects, turns[t..])
        decreases |turns| - t
      {
        if t == |turns| {
          assert turns[t..] == [];
          went := Held;
          return;
        }
        ghost var p := Pass(cursor, p0.at, saved, flagged, runs, base, Looking);
        cursor, runs, went := TakeTurn(p, cursor, base, turns[t], runs);
        ghost var q := Pass(cursor, p0.at, saved, flagged, runs, base, Looking);
        LookLeads(p0, projects, turns[t0..], turns, t, p, q, went);
        if went.Full? {
          return;
        }
        t := t + 1;
        if !went.Again? {
          return;
        }
      }
    }

    /** Comes to a project: the duplicates first, if they are still to do. */
    method Enter(ghost p: Pass, c0: Cursor, base: nat, project: nat, turn: Turn, runs: nat)
      returns (cursor: Cursor, went: Went)
      requires p == Pass(c0, p.at, saved, flagged, runs, base, Arriving)
      modifies this
      ensures forall projects: seq<nat> :: p.at < |projects| && projects[p.at] == project ==>
                var q := Arrive(p, projects, turn);
                && (went.Onward? ==> q == Pass(cursor, p.at + 1, saved, flagged, runs, base, Arriving))
                && (went.Again? ==> q == Pass(cursor, p.at, saved, flagged, runs, base, Looking))
                && (went.Held? ==> Ends(q, this, runs))
      ensures !went.Full?
    {
      cursor := c0;
      if cursor.project != 0 && project < cursor.project {
        went := Onward;
        return;
      }
      if project != cursor.project {
        cursor := Cursor(project, false, 0, cursor.calls, 0);
      }
      if turn.fate != Lives {
        went := Held;
        return;
      }
      if !cursor.labelling {
        cursor := cursor.(labelling := true);
        Save(cursor);
      }
      went := Again;
    }

    /** One project, from turn `t0`. */
    method Project(ghost p0: Pass, c0: Cursor, base: nat, projects: seq<nat>, i: nat,
                   turns: seq<Turn>, t0: nat, runs0: nat)
      returns (cursor: Cursor, t: nat, runs: nat, went: Went)
      requires i < |projects| && t0 <= |turns| && p0 == Pass(c0, i, saved, flagged, runs0, base, Arriving)
      modifies this
      ensures t0 <= t <= |turns| && !went.Again?
      ensures Leads(p0, projects, turns[t0..], Pass(cursor, i, saved, flagged, runs, base, Looking), turns[t..], went)
    {
      cursor, t, runs, went := c0, t0, runs0, Held;
      if t == |turns| {
        return;
      }
      RunNext(p0, projects, turns, t);
      cursor, went := Enter(p0, cursor, base, projects[i], turns[t], runs);
      t := t + 1;
      if went.Again? {
        ghost var p := Pass(cursor, i, saved, flagged, runs, base, Looking);
        cursor, t, runs, went := Walk(p, cursor, base, projects, turns, t, runs);
      }
    }

    /** One invocation.  `turns` is all the world answers it; when they run out
        the process is gone. */
    method RunPass(projects: seq<nat>, rows: nat, turns: seq<Turn>) returns (runs: nat)
      requires !flagged
      modifies this
      ensures SameEnd(Run(Begin(old(saved), rows), projects, turns), Found(saved, flagged, runs))
    {
      var cursor := if saved.Some? then saved.value else Cursor(0, false, 0, 0, 0);
      var base := Max(rows, cursor.calls);
      var t, i := 0, 0;
      runs := 0;
      ghost var end := Run(Begin(saved, rows), projects, turns);
      assert turns[0..] == turns;
      while i < |projects|
        invariant i <= |projects| && t <= |turns|
        invariant end == Run(Pass(cursor, i, saved, flagged, runs, base, Arriving), projects, turns[t..])
      {
        ghost var p := Pass(cursor, i, saved, flagged, runs, base, Arriving);
        var went;
        cursor, t, runs, went := Project(p, cursor, base, projects, i, turns, t, runs);
        if went.Held? {
          return;
        }
        if went.Full? {
          Conclude(cursor, turns[t]);
          return;
        }
        i := i + 1;
      }
      if t == |turns| {
        return;
      }
      RunNext(Pass(cursor, i, saved, flagged, runs, base, Arriving), projects, turns, t);
      Conclude(cursor, turns[t]);
    }
  }

  function Found(saved: Option<Cursor>, flagged: bool, runs: nat): Pass {
    Pass(Cursor(0, false, 0, 0, 0), 0, saved, flagged, runs, 0, Stopped)
  }

  /** How a turn went: more of the project is left, nothing is, the calls are
      spent, or the invocation ends here. */
  datatype Went = Again | Onward | Full | Held

  /** Stopped, with the store and the runs as they are. */
  predicate Ends(p: Pass, store: Store, runs: nat)
    reads store
  {
    p.phase.Stopped? && p.saved == store.saved && p.flagged == store.flagged && p.runs == runs
  }

  predicate SameEnd(p: Pass, q: Pass) {
    p.saved == q.saved && p.flagged == q.flagged && p.runs == q.runs
  }

  /** From `p` over these turns, the walk came to `q` with `rest` to go. */
  ghost predicate Leads(
      p: Pass, projects: seq<nat>, turns: seq<Turn>, q: Pass, rest: seq<Turn>, went: Went)
  {
    var end := Run(p, projects, turns);
    && (went.Onward? ==> end == Run(q.(phase := Arriving, at := q.at + 1), projects, rest))
    && (went.Full? ==> rest != [] && SameEnd(end, Finish(q, rest[0])))
    && (went.Held? ==> SameEnd(end, q))
  }

  /** A last turn, and what it leads to. */
  lemma LookLeads(p0: Pass, projects: seq<nat>, from: seq<Turn>, turns: seq<Turn>, t: nat, p: Pass, q: Pass, went: Went)
    requires t < |turns| && p.phase.Looking? && Run(p0, projects, from) == Run(p, projects, turns[t..])
    requires went.Again? ==> Look(p, turns[t]) == q
    requires went.Onward? ==> Look(p, turns[t]) == q.(phase := Arriving, at := q.at + 1)
    requires went.Full? ==> Look(p, turns[t]) == Finish(p, turns[t]) && p == q
    requires went.Held? ==> Look(p, turns[t]).phase.Stopped? && SameEnd(Look(p, turns[t]), q)
    ensures went.Again? ==> Run(p0, projects, from) == Run(q, projects, turns[t + 1..])
    ensures Leads(p0, projects, from, q, turns[if went.Full? then t else t + 1..], went)
  {
    RunNext(p, projects, turns, t);
    assert turns[t..][0] == turns[t];
  }

  lemma RunNext(p: Pass, projects: seq<nat>, turns: seq<Turn>, t: nat)
    requires t < |turns|
    ensures Run(p, projects, turns[t..]) == Run(Step(p, projects, turns[t]), projects, turns[t + 1..])
    ensures Step(p, projects, turns[t]).phase.Stopped? ==>
              Run(p, projects, turns[t..]) == Step(p, projects, turns[t])
  {
    assert turns[t..][1..] == turns[t + 1..];
    StoppedStays(Step(p, projects, turns[t]), projects, turns[t + 1..]);
  }

  lemma {:induction false} StoppedStays(p: Pass, projects: seq<nat>, turns: seq<Turn>)
    ensures p.phase.Stopped? ==> Run(p, projects, turns) == p
    decreases |turns|
  {
    if turns != [] {
      StoppedStays(Step(p, projects, turns[0]), projects, turns[1..]);
    }
  }
}
