/** Catching up agrees with reading the whole log. */
module LogCatchUpSafety {
  import opened Basics
  import opened LogCatchUp

  // ---- A log that stops changing: repeated runs read all of it. ----

  /** What is known of an id: in the index, written by the scan, or still to be read. */
  predicate Reached(ids: set<string>, wrote: seq<string>, left: seq<string>, x: string) {
    x in ids || x in wrote || x in left
  }

  /** One scan takes the ids of the lines it passes and leaves the rest for later. */
  lemma {:induction false} ScanReadsId(parse: Parser, file: seq<Byte>, at: nat, last: nat, limit: nat,
                                       ids: set<string>, room: nat, x: string)
    requires at <= |file|
    ensures var r := Scan(parse, file, at, last, limit, ids, room);
            Reached(ids, r.wrote, LineIds(parse, file, r.end), x) <==> Reached(ids, [], LineIds(parse, file, at), x)
    decreases |file| - at
  {
    if at < limit && LineEnd(file, at).Some? {
      var end := LineEnd(file, at).value;
      var id := parse(file[at..end - 1]);
      if !Missing(ids, id) {
        ScanReadsId(parse, file, end, at, limit, ids, room, x);
        ScanPasses(parse, file, at, last, limit, ids, room);
        var rest := Scan(parse, file, end, at, limit, ids, room);
        PassesOne(parse, file, at, ids, rest.wrote, LineIds(parse, file, rest.end), x);
      } else if room > 0 {
        ScanReadsId(parse, file, end, at, limit, ids + {id.value}, room - 1, x);
        TakesOne(parse, file, at, last, limit, ids, room, x);
      }
    }
  }

  /** A line that is blank, malformed or indexed adds nothing. */
  lemma PassesOne(parse: Parser, file: seq<Byte>, at: nat, ids: set<string>,
                  wrote: seq<string>, left: seq<string>, x: string)
    requires at <= |file| && LineEnd(file, at).Some?
    requires !Missing(ids, parse(file[at..LineEnd(file, at).value - 1]))
    requires Reached(ids, wrote, left, x) <==> Reached(ids, [], LineIds(parse, file, LineEnd(file, at).value), x)
    ensures Reached(ids, wrote, left, x) <==> Reached(ids, [], LineIds(parse, file, at), x)
  {
    var end := LineEnd(file, at).value;
    var id := parse(file[at..end - 1]);
    if id.Some? {
      OneKnown(ids, id.value, wrote, left, LineIds(parse, file, end), x);
    }
  }

  lemma ScanPasses(parse: Parser, file: seq<Byte>, at: nat, last: nat, limit: nat, ids: set<string>, room: nat)
    requires at <= |file| && at < limit && LineEnd(file, at).Some?
    requires !Missing(ids, parse(file[at..LineEnd(file, at).value - 1]))
    ensures Scan(parse, file, at, last, limit, ids, room)
         == Scan(parse, file, LineEnd(file, at).value, at, limit, ids, room)
  {
  }

  lemma OneKnown(ids: set<string>, v: string, wrote: seq<string>, left: seq<string>, all: seq<string>, x: string)
    requires v in ids && (Reached(ids, wrote, left, x) <==> Reached(ids, [], all, x))
    ensures Reached(ids, wrote, left, x) <==> Reached(ids, [], [v] + all, x)
  {
  }

  /** The step of `ScanReadsId` at a line the index lacks. */
  lemma TakesOne(parse: Parser, file: seq<Byte>, at: nat, last: nat, limit: nat,
                 ids: set<string>, room: nat, x: string)
    requires at <= |file| && at < limit && LineEnd(file, at).Some? && room > 0
    requires Missing(ids, parse(file[at..LineEnd(file, at).value - 1]))
    requires var end := LineEnd(file, at).value;
             var more := ids + {parse(file[at..end - 1]).value};
             var rest := Scan(parse, file, end, at, limit, more, room - 1);
             Reached(more, rest.wrote, LineIds(parse, file, rest.end), x)
             <==> Reached(more, [], LineIds(parse, file, end), x)
    ensures var r := Scan(parse, file, at, last, limit, ids, room);
            Reached(ids, r.wrote, LineIds(parse, file, r.end), x) <==> Reached(ids, [], LineIds(parse, file, at), x)
  {
    var end := LineEnd(file, at).value;
    var id := parse(file[at..end - 1]).value;
    var rest := Scan(parse, file, end, at, limit, ids + {id}, room - 1);
    OneWritten(ids, id, rest.wrote, LineIds(parse, file, rest.end), LineIds(parse, file, end), x);
  }

  lemma OneWritten(ids: set<string>, v: string, wrote: seq<string>, left: seq<string>, all: seq<string>, x: string)
    requires Reached(ids + {v}, wrote, left, x) <==> Reached(ids + {v}, [], all, x)
    ensures Reached(ids, [v] + wrote, left, x) <==> Reached(ids, [], [v] + all, x)
  {
  }

  lemma ScanReads(parse: Parser, file: seq<Byte>, at: nat, last: nat, limit: nat,
                  ids: set<string>, room: nat)
    requires at <= |file|
    ensures var r := Scan(parse, file, at, last, limit, ids, room);
            ids + SetOf(r.wrote) + SetOf(LineIds(parse, file, r.end)) == ids + SetOf(LineIds(parse, file, at))
  {
    var r := Scan(parse, file, at, last, limit, ids, room);
    var left, right := ids + SetOf(r.wrote) + SetOf(LineIds(parse, file, r.end)), ids + SetOf(LineIds(parse, file, at));
    forall x: string
      ensures x in left <==> x in right
    {
      ScanReadsId(parse, file, at, last, limit, ids, room, x);
    }
  }

  predicate AddsEachOnce(ids: set<string>, wrote: seq<string>) {
    forall i :: 0 <= i < |wrote| ==> wrote[i] !in ids && forall j :: i < j < |wrote| ==> wrote[i] != wrote[j]
  }

  /** It writes no id the index held, and none twice. */
  lemma {:induction false} ScanWritesOnce(parse: Parser, file: seq<Byte>, at: nat, last: nat, limit: nat,
                                          ids: set<string>, room: nat)
    requires at <= |file|
    ensures var r := Scan(parse, file, at, last, limit, ids, room);
            AddsEachOnce(ids, r.wrote)
    decreases |file| - at
  {
    var next := LineEnd(file, at);
    if at < limit && next.Some? {
      var id := parse(file[at..next.value - 1]);
      if id.None? || id.value in ids {
        ScanWritesOnce(parse, file, next.value, at, limit, ids, room);
      } else if room > 0 {
        ScanWritesOnce(parse, file, next.value, at, limit, ids + {id.value}, room - 1);
        DistinctConcat([id.value], Scan(parse, file, next.value, at, limit, ids + {id.value}, room - 1).wrote);
      }
    }
  }

  lemma DistinctConcat(a: seq<string>, b: seq<string>)
    requires Distinct(a) && Distinct(b) && SetOf(a) !! SetOf(b)
    ensures Distinct(a + b) && SetOf(a + b) == SetOf(a) + SetOf(b)
  {
    forall i, j | 0 <= i < j < |a + b|
      ensures (a + b)[i] != (a + b)[j]
    {
      if i < |a| <= j {
        assert a[i] in SetOf(a) && b[j - |a|] in SetOf(b);
      }
    }
  }

  /** With a budget it passes at least one whole line, when there is one. */
  lemma {:induction false} ScanMoves(parse: Parser, file: seq<Byte>, at: nat, last: nat, limit: nat,
                                     ids: set<string>, room: nat)
    requires at <= |file|
    ensures var r := Scan(parse, file, at, last, limit, ids, room);
            var moves := r.ok && at < limit && LineEnd(file, at).Some?;
            LinesFrom(file, r.end) + (if moves then 1 else 0) <= LinesFrom(file, at)
    decreases |file| - at
  {
    var next := LineEnd(file, at);
    if at < limit && next.Some? {
      var id := parse(file[at..next.value - 1]);
      if id.None? || id.value in ids {
        ScanMoves(parse, file, next.value, at, limit, ids, room);
      } else if room > 0 {
        ScanMoves(parse, file, next.value, at, limit, ids + {id.value}, room - 1);
      }
    }
  }

  /** One run: its byte budget, and how many index writes succeed before one fails. */
  datatype Turn = Turn(budget: nat, room: nat)

  datatype Series = Series(mark: Option<Mark>, ids: set<string>, wrote: seq<string>, successes: nat)

  /** Runs over a file that stays as it is. */
  function Runs(parse: Parser, file: seq<Byte>, mark: Option<Mark>, ids: set<string>, turns: seq<Turn>): Series
    decreases |turns|
  {
    if turns == [] then Series(mark, ids, [], 0)
    else
      var r := CatchUp(parse, file, mark, ids, turns[0].budget, turns[0].room);
      var rest := Runs(parse, file, r.mark, ids + SetOf(r.wrote), turns[1..]);
      rest.(wrote := r.wrote + rest.wrote, successes := (if r.ok then 1 else 0) + rest.successes)
  }

  /** A run reads on from where the watermark it believes says. */
  lemma RunReads(parse: Parser, file: seq<Byte>, mark: Option<Mark>, ids: set<string>, turn: Turn)
    ensures var r := CatchUp(parse, file, mark, ids, turn.budget, turn.room);
            && (!r.ok ==> r.mark == mark)
            && ids + SetOf(r.wrote) + SetOf(LineIds(parse, file, StartOf(file, r.mark)))
               == ids + SetOf(LineIds(parse, file, StartOf(file, mark)))
  {
    var start := StartOf(file, mark);
    var r := CatchUp(parse, file, mark, ids, turn.budget, turn.room);
    if start == |file| {
      assert SetOf(r.wrote) == {};
    } else {
      CatchUpIsScan(parse, file, mark, ids, turn);
      if r.ok {
        ScanReads(parse, file, start, LastOf(file, mark), start + turn.budget, ids, turn.room);
      } else {
        FailedReads(parse, file, start, LastOf(file, mark), start + turn.budget, ids, turn.room);
      }
    }
  }

  lemma RunWritesOnce(parse: Parser, file: seq<Byte>, mark: Option<Mark>, ids: set<string>, turn: Turn)
    ensures var r := CatchUp(parse, file, mark, ids, turn.budget, turn.room);
            AddsEachOnce(ids, r.wrote)
  {
    var start := StartOf(file, mark);
    if start < |file| {
      CatchUpIsScan(parse, file, mark, ids, turn);
      ScanWritesOnce(parse, file, start, LastOf(file, mark), start + turn.budget, ids, turn.room);
    }
  }

  /** A successful run with a budget takes at least one whole line. */
  lemma RunMoves(parse: Parser, file: seq<Byte>, mark: Option<Mark>, ids: set<string>, turn: Turn)
    ensures var r, start := CatchUp(parse, file, mark, ids, turn.budget, turn.room), StartOf(file, mark);
            && (r.ok && turn.budget > 0 && LinesFrom(file, start) > 0 ==>
                  LinesFrom(file, StartOf(file, r.mark)) < LinesFrom(file, start))
            && LinesFrom(file, StartOf(file, r.mark)) <= LinesFrom(file, start)
  {
    var start := StartOf(file, mark);
    if start < |file| {
      CatchUpIsScan(parse, file, mark, ids, turn);
      ScanMoves(parse, file, start, LastOf(file, mark), start + turn.budget, ids, turn.room);
    }
  }

  /** The watermark a successful run saves is believed, and says where its scan ended. */
  lemma CatchUpIsScan(parse: Parser, file: seq<Byte>, mark: Option<Mark>, ids: set<string>, turn: Turn)
    requires StartOf(file, mark) < |file|
    ensures var start := StartOf(file, mark);
            var scan := Scan(parse, file, start, LastOf(file, mark), start + turn.budget, ids, turn.room);
            var r := CatchUp(parse, file, mark, ids, turn.budget, turn.room);
            && r.ok == scan.ok && r.wrote == scan.wrote
            && (if r.ok then
                  && scan.last <= scan.end && StartOf(file, r.mark) == scan.end
                  && r.mark == Some(Mark(scan.end, scan.last, Print(file, scan.last, scan.end)))
                else r.mark == mark)
  {
    var start := StartOf(file, mark);
    ScanBounds(parse, file, start, LastOf(file, mark), start + turn.budget, ids, turn.room);
  }

  /** What a failed scan wrote are ids of lines it had yet to pass. */
  lemma {:induction false} FailedReads(parse: Parser, file: seq<Byte>, at: nat, last: nat, limit: nat,
                                       ids: set<string>, room: nat)
    requires at <= |file|
    ensures SetOf(Scan(parse, file, at, last, limit, ids, room).wrote) <= SetOf(LineIds(parse, file, at))
    decreases |file| - at
  {
    var next := LineEnd(file, at);
    if at < limit && next.Some? {
      var id := parse(file[at..next.value - 1]);
      if id.Some? {
        SetOfConcat([id.value], LineIds(parse, file, next.value));
      }
      if id.None? || id.value in ids {
        FailedReads(parse, file, next.value, at, limit, ids, room);
      } else if room > 0 {
        FailedReads(parse, file, next.value, at, limit, ids + {id.value}, room - 1);
        SetOfConcat([id.value], Scan(parse, file, next.value, at, limit, ids + {id.value}, room - 1).wrote);
      }
    }
  }

  /** The main refinement.  Over a log that stops changing, whatever it is and
      whatever watermark was stored, runs with a budget of which as many
      succeed as there are lines left end with exactly the ids of the lines
      from the believed watermark on added to the index, however index writes
      fail in between - and write none of them twice. */
  lemma {:induction false} RunsReadTheLog(parse: Parser, file: seq<Byte>, mark: Option<Mark>,
                                          ids: set<string>, turns: seq<Turn>)
    requires forall t :: t in turns ==> t.budget > 0
    requires Runs(parse, file, mark, ids, turns).successes >= LinesFrom(file, StartOf(file, mark))
    ensures var s := Runs(parse, file, mark, ids, turns);
            && s.ids == ids + SetOf(LineIds(parse, file, StartOf(file, mark)))
            && LinesFrom(file, StartOf(file, s.mark)) == 0
            && s.ids == ids + SetOf(s.wrote) && Distinct(s.wrote) && SetOf(s.wrote) !! ids
    decreases |turns|
  {
    if turns == [] {
      assert LinesFrom(file, StartOf(file, mark)) == 0;
      NoLinesNoIds(parse, file, StartOf(file, mark));
    } else {
      var r := CatchUp(parse, file, mark, ids, turns[0].budget, turns[0].room);
      RunReads(parse, file, mark, ids, turns[0]);
      RunWritesOnce(parse, file, mark, ids, turns[0]);
      RunMoves(parse, file, mark, ids, turns[0]);
      RunsReadTheLog(parse, file, r.mark, ids + SetOf(r.wrote), turns[1..]);
      DistinctConcat(r.wrote, Runs(parse, file, r.mark, ids + SetOf(r.wrote), turns[1..]).wrote);
    }
  }

  lemma NoLinesNoIds(parse: Parser, file: seq<Byte>, at: nat)
    requires at <= |file| && LinesFrom(file, at) == 0
    ensures LineIds(parse, file, at) == []
  {
  }

  // ---- A log that grows while runs are cut short. ----

  predicate Boundary(file: seq<Byte>, p: nat) {
    p <= |file| && (p == 0 || file[p - 1] == NEWLINE)
  }

  /** `file[from..to]` is one whole line, newline included. */
  predicate IsLine(file: seq<Byte>, from: nat, to: nat) {
    && from < to <= |file|
    && Boundary(file, from)
    && file[to - 1] == NEWLINE
    && forall k :: from <= k < to - 1 ==> file[k] != NEWLINE
  }

  /** Every parseable line that ends by `end` is in the index. */
  ghost predicate Indexed(parse: Parser, file: seq<Byte>, end: nat, ids: set<string>) {
    forall from: nat, to: nat :: IsLine(file, from, to) && to <= end && parse(file[from..to - 1]).Some? ==>
      parse(file[from..to - 1]).value in ids
  }

  predicate LastLine(file: seq<Byte>, last: nat, end: nat) {
    IsLine(file, last, end) || last == end == 0
  }

  /** What a watermark promises: it ends at a line, its fingerprint still
      matches, and every parseable line before it is in the index. */
  ghost predicate MarkTrue(parse: Parser, file: seq<Byte>, mark: Mark, ids: set<string>) {
    && mark.last <= mark.end <= |file|
    && Boundary(file, mark.end)
    && LastLine(file, mark.last, mark.end)
    && mark.head == Print(file, mark.last, mark.end)
    && Indexed(parse, file, mark.end, ids)
  }

  lemma {:induction false} LineEndIsFirst(file: seq<Byte>, at: nat)
    requires at <= |file|
    ensures LineEnd(file, at).Some? ==> file[LineEnd(file, at).value - 1] == NEWLINE
    ensures var end := LineEnd(file, at);
            forall k :: at <= k < (if end.Some? then end.value - 1 else |file|) ==> file[k] != NEWLINE
    decreases |file| - at
  {
    if at < |file| && file[at] != NEWLINE {
      LineEndIsFirst(file, at + 1);
    }
  }

  /** From one line boundary to the next there is one line. */
  lemma OneMoreLine(parse: Parser, file: seq<Byte>, at: nat, ids: set<string>)
    requires Boundary(file, at) && LineEnd(file, at).Some?
    requires Indexed(parse, file, at, ids)
    ensures var end := LineEnd(file, at).value;
            && IsLine(file, at, end)
            && (parse(file[at..end - 1]).None? || parse(file[at..end - 1]).value in ids ==>
                  Indexed(parse, file, end, ids))
  {
    LineEndIsFirst(file, at);
    var end := LineEnd(file, at).value;
    forall from: nat, to: nat | IsLine(file, from, to) && at < to <= end
      ensures from == at && to == end
    {
    }
  }

  lemma WroteFirst(ids: set<string>, id: string, wrote: seq<string>)
    ensures ids + {id} + SetOf(wrote) == ids + SetOf([id] + wrote)
  {
    SetOfConcat([id], wrote);
    assert SetOf([id]) == {id};
  }

  lemma {:induction false} ScanKeepsTrue(parse: Parser, file: seq<Byte>, at: nat, last: nat, limit: nat,
                                         ids: set<string>, room: nat)
    requires last <= at && Boundary(file, at) && LastLine(file, last, at) && Indexed(parse, file, at, ids)
    ensures var r := Scan(parse, file, at, last, limit, ids, room);
            && Boundary(file, r.end) && LastLine(file, r.last, r.end)
            && Indexed(parse, file, r.end, ids + SetOf(r.wrote))
    decreases |file| - at
  {
    var next := LineEnd(file, at);
    if at < limit && next.Some? {
      OneMoreLine(parse, file, at, ids);
      var id := parse(file[at..next.value - 1]);
      if id.None? || id.value in ids {
        ScanKeepsTrue(parse, file, next.value, at, limit, ids, room);
      } else if room > 0 {
        OneMoreLine(parse, file, at, ids + {id.value});
        ScanKeepsTrue(parse, file, next.value, at, limit, ids + {id.value}, room - 1);
        WroteFirst(ids, id.value, Scan(parse, file, next.value, at, limit, ids + {id.value}, room - 1).wrote);
      }
    }
  }

  lemma StartIsTrue(parse: Parser, file: seq<Byte>, mark: Option<Mark>, ids: set<string>)
    requires Trusted(file, mark) ==> MarkTrue(parse, file, mark.value, ids)
    ensures var start, last := StartOf(file, mark), LastOf(file, mark);
            && last <= start <= |file| && Boundary(file, start)
            && LastLine(file, last, start) && Indexed(parse, file, start, ids)
  {
  }

  /** A run leaves a true watermark wherever the one it believed was true. */
  lemma RunKeepsTrue(parse: Parser, file: seq<Byte>, mark: Option<Mark>, ids: set<string>, turn: Turn)
    requires Trusted(file, mark) ==> MarkTrue(parse, file, mark.value, ids)
    ensures var r := CatchUp(parse, file, mark, ids, turn.budget, turn.room);
            r.mark == mark || MarkTrue(parse, file, r.mark.value, ids + SetOf(r.wrote))
  {
    var start := StartOf(file, mark);
    StartIsTrue(parse, file, mark, ids);
    if start < |file| {
      CatchUpIsScan(parse, file, mark, ids, turn);
      ScanKeepsTrue(parse, file, start, LastOf(file, mark), start + turn.budget, ids, turn.room);
    }
  }

  /** What a watermark promises of a prefix it promises of the whole, and back. */
  lemma TrueOfPrefix(parse: Parser, file: seq<Byte>, n: nat, mark: Mark, ids: set<string>)
    requires mark.end <= n <= |file|
    ensures MarkTrue(parse, file[..n], mark, ids) <==> MarkTrue(parse, file, mark, ids)
  {
    assert forall from: nat, to: nat :: to <= n ==> (IsLine(file, from, to) <==> IsLine(file[..n], from, to));
    forall from: nat, to: nat | to <= n && IsLine(file, from, to)
      ensures file[..n][from..to - 1] == file[from..to - 1]
    {
    }
    if mark.last <= mark.end {
      assert Print(file[..n], mark.last, mark.end) == Print(file, mark.last, mark.end);
    }
  }

  /** What happens to one log file and to the index. */
  datatype Happening =
    | Append(bytes: seq<Byte>)          // whole lines or halves of them
    | IndexedElsewhere(id: string)      // a hook, or another run
    | Run(seen: nat, turn: Turn, killed: bool)

  datatype World = World(file: seq<Byte>, mark: Option<Mark>, ids: set<string>, wrote: seq<string>)

  /** A run reads the length it saw when it opened the file; one killed after
      indexing never saves its watermark. */
  predicate Possible(w: World, h: Happening) {
    h.Run? ==> h.seen <= |w.file|
  }

  function After(parse: Parser, w: World, h: Happening): World
    requires Possible(w, h)
  {
    match h
    case Append(bytes) => w.(file := w.file + bytes)
    case IndexedElsewhere(id) => w.(ids := w.ids + {id})
    case Run(seen, turn, killed) =>
      var r := CatchUp(parse, w.file[..seen], w.mark, w.ids, turn.budget, turn.room);
      w.(mark := if killed then w.mark else r.mark,
         ids := w.ids + SetOf(r.wrote),
         wrote := w.wrote + r.wrote)
  }

  ghost predicate Kept(parse: Parser, w: World) {
    && (w.mark.Some? ==> MarkTrue(parse, w.file, w.mark.value, w.ids))
    && Distinct(w.wrote) && SetOf(w.wrote) <= w.ids
  }

  ghost predicate History(parse: Parser, w: World, hs: seq<Happening>)
    decreases |hs|
  {
    hs == [] || (Possible(w, hs[0]) && History(parse, After(parse, w, hs[0]), hs[1..]))
  }

  ghost function End(parse: Parser, w: World, hs: seq<Happening>): World
    requires History(parse, w, hs)
    decreases |hs|
  {
    if hs == [] then w else End(parse, After(parse, w, hs[0]), hs[1..])
  }

  /** Over any history of appends (halves of lines included), budgeted runs
      that read any length they saw, index writes failing in any pattern, and
      kills before the watermark is saved: the saved watermark stays true, and
      no id is written twice by catching up. */
  lemma {:induction false} HistoryKeeps(parse: Parser, w: World, hs: seq<Happening>)
    requires Kept(parse, w) && History(parse, w, hs)
    ensures forall n :: 0 <= n <= |hs| ==> History(parse, w, hs[..n]) && Kept(parse, End(parse, w, hs[..n]))
    decreases |hs|
  {
    if hs != [] {
      match hs[0] {
        case Append(bytes) =>
          if w.mark.Some? {
            assert (w.file + bytes)[..|w.file|] == w.file;
            TrueOfPrefix(parse, w.file + bytes, |w.file|, w.mark.value, w.ids);
          }
        case IndexedElsewhere(id) =>
        case Run(seen, turn, killed) =>
          var snapshot := w.file[..seen];
          if Trusted(snapshot, w.mark) {
            TrueOfPrefix(parse, w.file, seen, w.mark.value, w.ids);
          }
          RunKeepsTrue(parse, snapshot, w.mark, w.ids, turn);
          RunWritesOnce(parse, snapshot, w.mark, w.ids, turn);
          var r := CatchUp(parse, snapshot, w.mark, w.ids, turn.budget, turn.room);
          DistinctConcat(w.wrote, r.wrote);
          if r.mark.Some? && r.mark != w.mark {
            TrueOfPrefix(parse, w.file, seen, r.mark.value, w.ids + SetOf(r.wrote));
          }
      }
      HistoryKeeps(parse, After(parse, w, hs[0]), hs[1..]);
    }
    forall n | 0 < n <= |hs|
      ensures History(parse, w, hs[..n]) && Kept(parse, End(parse, w, hs[..n]))
    {
      assert hs[..n][0] == hs[0] && hs[..n][1..] == hs[1..][..n - 1];
    }
  }

  /** Exactly the parseable whole lines are found. */
  lemma {:induction false} LineIdsAre(parse: Parser, file: seq<Byte>, at: nat, id: string)
    requires Boundary(file, at)
    ensures id in LineIds(parse, file, at) <==>
              exists from: nat, to: nat :: at <= from && LineSays(parse, file, from, to, id)
    decreases |file| - at
  {
    LineEndIsFirst(file, at);
    if LineEnd(file, at).Some? {
      var end := LineEnd(file, at).value;
      LineIdsAre(parse, file, end, id);
      assert id in LineIds(parse, file, at) <==> LineSays(parse, file, at, end, id) || id in LineIds(parse, file, end);
      forall from: nat, to: nat | at <= from && IsLine(file, from, to)
        ensures from >= end || (from == at && to == end)
      {
      }
    }
  }

  predicate LineSays(parse: Parser, file: seq<Byte>, from: nat, to: nat, id: string) {
    IsLine(file, from, to) && parse(file[from..to - 1]) == Some(id)
  }

  /** `file[from..]` is a last line without its newline. */
  predicate IsTail(file: seq<Byte>, from: nat) {
    from < |file| && Boundary(file, from) && forall k :: from <= k < |file| ==> file[k] != NEWLINE
  }

  /** What is after the whole lines is the tail, and nothing else is. */
  lemma {:induction false} TailIff(file: seq<Byte>, at: nat, from: nat)
    requires Boundary(file, at) && at <= from
    ensures IsTail(file, from) <==> from == LinesEnd(file, at) < |file|
    decreases |file| - at
  {
    LineEndIsFirst(file, at);
    if LineEnd(file, at).Some? {
      var end := LineEnd(file, at).value;
      if end <= from {
        TailIff(file, end, from);
      }
    }
  }

  /** Reading from scratch finds exactly the ids of the parseable lines, the last
      one even without its newline. */
  lemma ReadAllIsLines(parse: Parser, file: seq<Byte>, id: string)
    ensures id in ReadAll(parse, file) <==>
            (exists from: nat, to: nat :: LineSays(parse, file, from, to, id))
            || (exists from: nat :: IsTail(file, from) && parse(file[from..]) == Some(id))
  {
    LineIdsAre(parse, file, 0, id);
    forall from: nat
      ensures IsTail(file, from) <==> from == LinesEnd(file, 0) < |file|
    {
      TailIff(file, 0, from);
    }
  }

  /** The two together.  However the log grew and the runs before were cut
      short, runs over the log as it then stands, as many succeeding as it has
      lines, leave exactly the ids of reading it from scratch in the index,
      beside what was there - but for a last line still without its newline. */
  lemma CatchUpRefinesReadAll(parse: Parser, w: World, hs: seq<Happening>, turns: seq<Turn>)
    requires w.mark == None && w.wrote == [] && History(parse, w, hs)
    requires forall t :: t in turns ==> t.budget > 0
    requires var e := End(parse, w, hs);
             Runs(parse, e.file, e.mark, e.ids, turns).successes >= LinesFrom(e.file, 0)
    ensures var e := End(parse, w, hs);
            var s := Runs(parse, e.file, e.mark, e.ids, turns);
            && s.ids == e.ids + SetOf(LineIds(parse, e.file, 0))
            && s.ids + SetOf(TailIds(parse, e.file)) == e.ids + SetOf(ReadAll(parse, e.file))
            && Distinct(e.wrote + s.wrote)
  {
    HistoryKeeps(parse, w, hs);
    assert hs[..|hs|] == hs;
    var e := End(parse, w, hs);
    var start := StartOf(e.file, e.mark);
    FewerLinesLater(e.file, 0, start);
    RunsReadTheLog(parse, e.file, e.mark, e.ids, turns);
    var s := Runs(parse, e.file, e.mark, e.ids, turns);
    DistinctConcat(e.wrote, s.wrote);
    forall id: string
      ensures id in s.ids <==> id in e.ids + SetOf(LineIds(parse, e.file, 0))
    {
      ReadInTwo(parse, e.file, start, id);
    }
  }

  /** What is read from the start is what is read from a line's end on, and the
      lines before. */
  lemma ReadInTwo(parse: Parser, file: seq<Byte>, start: nat, id: string)
    requires Boundary(file, start)
    ensures id in LineIds(parse, file, 0) <==>
            id in LineIds(parse, file, start)
            || exists from: nat, to: nat ::
                 to <= start && LineSays(parse, file, from, to, id)
  {
    LineIdsAre(parse, file, 0, id);
    LineIdsAre(parse, file, start, id);
    forall from: nat, to: nat | IsLine(file, from, to) && from < start
      ensures to <= start
    {
      assert start > 0 && file[start - 1] == NEWLINE;
    }
  }

  lemma {:induction false} FewerLinesLater(file: seq<Byte>, at: nat, later: nat)
    requires Boundary(file, later) && at <= later
    ensures LinesFrom(file, later) <= LinesFrom(file, at)
    decreases later - at
  {
    if at < later {
      LineEndIsFirst(file, at);
      FewerLinesLater(file, LineEnd(file, at).value, later);
    }
  }

  // ---- How much one run reads. ----

  /** The line that begins at `from` ends at `to`. */
  predicate EndsLine(file: seq<Byte>, from: nat, to: nat) {
    from <= |file| && LineEnd(file, from) == Some(to)
  }

  /** From `at` to `end`: the last line taken began below the limit, and no other
      whole line that begins below it is left. */
  predicate ReadsWithin(file: seq<Byte>, at: nat, limit: nat, last: nat, end: nat) {
    && at <= end <= |file|
    && (end > at ==> at <= last < limit && EndsLine(file, last, end))
    && (end >= limit || LineEnd(file, end).None?)
  }

  lemma {:induction false} ScanWithin(parse: Parser, file: seq<Byte>, at: nat, last: nat, limit: nat,
                                      ids: set<string>, room: nat)
    requires at <= |file| && Scan(parse, file, at, last, limit, ids, room).ok
    ensures var r := Scan(parse, file, at, last, limit, ids, room);
            ReadsWithin(file, at, limit, r.last, r.end) && (r.end == at ==> r.last == last)
    decreases |file| - at
  {
    if at < limit && LineEnd(file, at).Some? {
      var end := LineEnd(file, at).value;
      var id := parse(file[at..end - 1]);
      if !Missing(ids, id) {
        ScanWithin(parse, file, end, at, limit, ids, room);
      } else {
        ScanWithin(parse, file, end, at, limit, ids + {id.value}, room - 1);
      }
    }
  }

  /** A run that saves its watermark read on from the one it believed, no line
      that begins past its budget, and stopped only for the budget or for want of
      a whole line. */
  lemma BudgetIsKept(parse: Parser, file: seq<Byte>, mark: Option<Mark>, ids: set<string>, turn: Turn)
    requires StartOf(file, mark) < |file| && CatchUp(parse, file, mark, ids, turn.budget, turn.room).ok
    ensures var start, saved := StartOf(file, mark), CatchUp(parse, file, mark, ids, turn.budget, turn.room).mark;
            saved.Some? && ReadsWithin(file, start, start + turn.budget, saved.value.last, saved.value.end)
  {
    CatchUpIsScan(parse, file, mark, ids, turn);
    ScanWithin(parse, file, StartOf(file, mark), LastOf(file, mark), StartOf(file, mark) + turn.budget, ids, turn.room);
  }

  /** With nothing past the watermark a run leaves everything as it is. */
  lemma NothingNew(parse: Parser, file: seq<Byte>, mark: Option<Mark>, ids: set<string>, turn: Turn)
    requires StartOf(file, mark) == |file|
    ensures CatchUp(parse, file, mark, ids, turn.budget, turn.room) == Caught(true, mark, [])
  {
  }

  // ---- A log rewritten under its watermark. ----

  /** Another file stands where the watermark was saved: a shorter one, or one
      with another byte among the first 64 of the last line read. */
  predicate Replaced(mark: Mark, was: seq<Byte>, now: seq<Byte>) {
    |now| < mark.end || exists p :: mark.last <= p < mark.end && p < mark.last + 64 && ByteChanged(was, now, p)
  }

  predicate ByteChanged(was: seq<Byte>, now: seq<Byte>, p: nat) {
    p < |was| && p < |now| && was[p] != now[p]
  }

  lemma SavedMark(parse: Parser, w: World, hs: seq<Happening>)
    requires w.mark == None && w.wrote == [] && History(parse, w, hs)
    ensures var e := End(parse, w, hs); e.mark.Some? ==> MarkTrue(parse, e.file, e.mark.value, e.ids)
  {
    HistoryKeeps(parse, w, hs);
    assert hs[..|hs|] == hs;
  }

  /** A watermark is believed of another file exactly when that does not show. */
  lemma TrustedIff(mark: Mark, was: seq<Byte>, now: seq<Byte>)
    requires mark.last <= mark.end <= |was| && mark.head == Print(was, mark.last, mark.end)
    ensures Trusted(now, Some(mark)) <==> !Replaced(mark, was, now)
  {
    if mark.end <= |now| {
      var n := Min(mark.end - mark.last, PRINT_BYTES);
      var a, b := was[mark.last..mark.last + n], now[mark.last..mark.last + n];
      forall k | 0 <= k < n
        ensures a[k] == was[mark.last + k] && b[k] == now[mark.last + k]
      {
      }
      if a != b {
        var k :| 0 <= k < n && a[k] != b[k];
        assert ByteChanged(was, now, mark.last + k);
      }
    }
  }

  /** After any history, a rewrite that leaves a shorter file, or changes any of
      the first 64 bytes of the last line read, is noticed: enough runs bring
      every whole line of the new file into the index. */
  lemma RewriteIsReread(
      parse: Parser, w: World, hs: seq<Happening>, now: seq<Byte>, ids: set<string>, turns: seq<Turn>)
    requires w.mark == None && w.wrote == [] && History(parse, w, hs)
    requires End(parse, w, hs).mark.Some?
    requires Replaced(End(parse, w, hs).mark.value, End(parse, w, hs).file, now)
    requires forall t :: t in turns ==> t.budget > 0
    requires Runs(parse, now, End(parse, w, hs).mark, ids, turns).successes >= LinesFrom(now, 0)
    ensures Runs(parse, now, End(parse, w, hs).mark, ids, turns).ids == ids + SetOf(LineIds(parse, now, 0))
  {
    SavedMark(parse, w, hs);
    TrustedIff(End(parse, w, hs).mark.value, End(parse, w, hs).file, now);
    RunsReadTheLog(parse, now, End(parse, w, hs).mark, ids, turns);
  }

  /** Any other rewrite is not: exactly the lines from the watermark on are read,
      so the index comes to hold the whole rewritten log if and only if it already
      held the lines before the watermark. */
  lemma UnnoticedRewrite(
      parse: Parser, w: World, hs: seq<Happening>, now: seq<Byte>, ids: set<string>, turns: seq<Turn>)
    requires w.mark == None && w.wrote == [] && History(parse, w, hs)
    requires End(parse, w, hs).mark.Some?
    requires !Replaced(End(parse, w, hs).mark.value, End(parse, w, hs).file, now)
    requires forall t :: t in turns ==> t.budget > 0
    requires Runs(parse, now, End(parse, w, hs).mark, ids, turns).successes
             >= LinesFrom(now, End(parse, w, hs).mark.value.end)
    ensures var end := End(parse, w, hs).mark.value.end;
            SetOf(LineIds(parse, now, 0)) <= Runs(parse, now, End(parse, w, hs).mark, ids, turns).ids
            <==> forall id :: id in LineIds(parse, now, 0) ==> id in ids || id in LineIds(parse, now, end)
  {
    SavedMark(parse, w, hs);
    TrustedIff(End(parse, w, hs).mark.value, End(parse, w, hs).file, now);
    RunsReadTheLog(parse, now, End(parse, w, hs).mark, ids, turns);
  }

  /** A line is its own id. */
  function Literal(line: seq<Byte>): Option<string> {
    if line == [65] then Some("a") else if line == [66] then Some("b") else if line == [67] then Some("c") else None
  }

  /** And such a rewrite does hide a line: `A\nB\n` was read to its end, and
      became `C\nB\n`; no run ever indexes `c`. */
  lemma {:induction false} RewriteHidesALine(turns: seq<Turn>)
    ensures MarkTrue(Literal, [65, 10, 66, 10], Mark(4, 2, [66, 10]), {"a", "b"})
    ensures "c" in LineIds(Literal, [67, 10, 66, 10], 0)
    ensures "c" !in Runs(Literal, [67, 10, 66, 10], Some(Mark(4, 2, [66, 10])), {"a", "b"}, turns).ids
  {
    var was: seq<Byte> := [65, 10, 66, 10];
    assert was[2..4] == [66, 10];
    forall from: nat, to: nat | IsLine(was, from, to)
      ensures Literal(was[from..to - 1]) == Some("a") || Literal(was[from..to - 1]) == Some("b")
    {
      assert to == 2 || to == 4;
      assert was[0] == 65 && was[1] == 10 && was[2] == 66;
      assert from != 1 && from != 3;
      assert from == to - 2;
      assert was[from..to - 1] == [was[from]];
    }
    var now: seq<Byte> := [67, 10, 66, 10];
    assert now[0..1] == [67] && now[2..4] == [66, 10];
    assert LineEnd(now, 0) == Some(2);
    if turns != [] {
      RewriteHidesALine(turns[1..]);
      assert Trusted(now, Some(Mark(4, 2, [66, 10])));
      assert {"a", "b"} + SetOf([]) == {"a", "b"};
    }
  }
}
