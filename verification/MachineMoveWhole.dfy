/** The move and the restore when nothing dies: the program's own order of steps. */
module MachineMoveWhole {
  import opened Basics
  import opened MachineMove

  /** No operation is under way and every line is indexed. */
  predicate AtRest(s: State) {
    s.pc.Idle? && s.pending == {} && s.index.edited <= s.index.copies && s.index.liveCopies <= s.index.copies
    && (forall c :: c in s.index.copies ==> Copied(c) in s.log)
  }

  /** The lesson is in its project, beside no copy but one a person corrected;
      or it is not, and one copy stands for it. */
  ghost predicate ExactlyOne(x: Index) {
    if x.live then x.liveCopies <= x.edited else exists c :: x.liveCopies == {c}
  }

  /** What is true of the lesson between operations. */
  ghost predicate Whole(s: State) {
    && AtRest(s) && ExactlyOne(s.index)
    && (!s.index.live ==> Gone in s.log)
    && (forall c :: Copied(c) in s.log ==> c in s.index.copies)
    && (s.index.live && !s.index.marked ==> s.index.copies == {})
  }

  /** What the copies of the first `k` lines are after a restore retired those
      nobody corrected. */
  function Unretired(x: Index, lines: seq<Event>, k: nat): (r: set<nat>)
    requires k <= |lines|
    ensures forall c :: c in r <==> c in x.liveCopies && (c in x.edited || Copied(c) !in lines[..k])
  {
    set c | c in x.liveCopies && (c in x.edited || Copied(c) !in lines[..k])
  }

  class Brain {
    var s: State

    constructor ()
      ensures s == START && Whole(s)
    {
      s := START;
    }

    /** Performs one step of the protocol. */
    method Do(l: Label)
      requires Enabled(s, l)
      modifies this
      ensures Next(old(s), l, s)
    {
      s := Result(s, l);
    }

    /** The lesson's turn in the move; `c` is a new id. */
    method Move(c: nat)
      requires Whole(s) && Copied(c) !in s.log
      modifies this
      ensures Whole(s)
      ensures if old(s).index.live && !old(s).index.marked
              then s.log == old(s).log + [Copied(c), Gone] && !s.index.live && s.index.liveCopies == {c}
              else s == old(s)
    {
      if !s.index.live || s.index.marked {
        return;
      }
      Do(AppendCopy(c));
      Do(IndexCopy);
      Do(AppendGone);
      Do(IndexGone);
      assert s.log[|s.log| - 1] == Gone && s.log[|s.log| - 2] == Copied(c);
      assert forall d :: Copied(d) in s.log <==> Copied(d) in old(s).log || d == c;
    }

    /** A restore of the move's run. */
    method Restore() returns (back: bool)
      requires Whole(s)
      modifies this
      ensures Whole(s) && s.index.live
      ensures back == !old(s).index.live
      ensures back ==> s.index.marked && s.index.liveCopies == old(s).index.liveCopies * old(s).index.edited
      ensures !back ==> s == old(s)
    {
      if s.index.live {
        return false;
      }
      Do(AppendBack);
      Do(IndexBack);
      assert s.log[|s.log| - 1] == Back;
      assert forall d :: Copied(d) in s.log <==> Copied(d) in old(s).log;
      RetireCopies();
      Do(EndRestore);
      back := true;
    }

    /** Withdraws the copies the machine's log holds of the lesson. */
    method RetireCopies()
      requires s.pc.Retiring? && AtRest(s.(pc := Idle)) && forall c :: Copied(c) in s.log ==> c in s.index.copies
      modifies this
      ensures s.pc.Retiring? && s.pending == {}
      ensures s.index == old(s).index.(liveCopies := old(s).index.liveCopies * old(s).index.edited)
      ensures forall e: Event :: !e.CopyGone? ==> (e in s.log <==> e in old(s).log)
    {
      ghost var was := s;
      var lines := s.log;
      for k := 0 to |lines|
        invariant s.pc.Retiring? && s.pending == {}
        invariant s.index == was.index.(liveCopies := Unretired(was.index, lines, k))
        invariant lines <= s.log
        invariant forall e: Event :: !e.CopyGone? ==> (e in s.log <==> e in lines)
      {
        assert lines[..k + 1] == lines[..k] + [lines[k]];
        if lines[k].Copied? {
          var c := lines[k].c;
          assert Copied(c) in was.log;
          if c in s.index.liveCopies && c !in s.index.edited {
            ghost var before := s;
            Do(AppendRetire(c));
            Do(IndexRetire);
            assert s.log == before.log + [CopyGone(c)];
          }
        }
        assert Unretired(was.index, lines, k + 1) == s.index.liveCopies;
      }
      assert lines[..|lines|] == lines;
      assert Unretired(was.index, lines, |lines|) == was.index.liveCopies * was.index.edited;
    }

    /** A person corrects a copy. */
    method Correct(c: nat)
      requires Whole(s) && c in s.index.liveCopies
      modifies this
      ensures Whole(s)
      ensures s.index == old(s).index.(edited := old(s).index.edited + {c})
    {
      Do(Edit(c, true));
      assert forall d :: Copied(d) in s.log <==> Copied(d) in old(s).log;
      assert Gone in old(s).log ==> Gone in s.log;
    }
  }
}
