/** The index catching up on one log file.

    A hook appends a line to the log and indexes it second, so an index write
    that failed leaves an event only the log has.  `CatchUpLog` reads what was
    appended since its watermark, within a byte budget, and indexes what the
    index lacks.  The reference it must agree with is reading the whole log. */
module LogCatchUp {
  import opened Basics

  type Byte = b: int | 0 <= b < 256

  const NEWLINE: Byte := 10
  const PRINT_BYTES: nat := 64

  /** The event id a line carries, or `None` for a blank or malformed line. */
  type Parser = seq<Byte> -> Option<string>

  /** `<end>:<last line start>:<fingerprint>`. */
  datatype Mark = Mark(end: nat, last: nat, head: seq<Byte>)

  /** Just past the next newline at or after `at`; `None` when the rest has none. */
  function LineEnd(file: seq<Byte>, at: nat): (end: Option<nat>)
    requires at <= |file|
    ensures end.Some? ==> at < end.value <= |file|
    decreases |file| - at
  {
    if at == |file| then None
    else if file[at] == NEWLINE then Some(at + 1)
    else LineEnd(file, at + 1)
  }

  /** The event ids of the whole lines from `at` on. */
  function LineIds(parse: Parser, file: seq<Byte>, at: nat): seq<string>
    requires at <= |file|
    decreases |file| - at
  {
    match LineEnd(file, at)
    case None => []
    case Some(end) =>
      var id := parse(file[at..end - 1]);
      if id.Some? then [id.value] + LineIds(parse, file, end) else LineIds(parse, file, end)
  }

  /** Where the whole lines from `at` on end. */
  function LinesEnd(file: seq<Byte>, at: nat): (end: nat)
    requires at <= |file|
    ensures at <= end <= |file|
    decreases |file| - at
  {
    match LineEnd(file, at)
    case None => at
    case Some(end) => LinesEnd(file, end)
  }

  /** The id on a last line without its newline: one being written, or cut short. */
  function TailIds(parse: Parser, file: seq<Byte>): seq<string> {
    var tail := file[LinesEnd(file, 0)..];
    if tail != [] && parse(tail).Some? then [parse(tail).value] else []
  }

  /** Every event id of the log read from scratch, an unfinished last line included. */
  function ReadAll(parse: Parser, file: seq<Byte>): seq<string> {
    LineIds(parse, file, 0) + TailIds(parse, file)
  }

  /** How many whole lines there are from `at` on. */
  function LinesFrom(file: seq<Byte>, at: nat): nat
    requires at <= |file|
    decreases |file| - at
  {
    match LineEnd(file, at)
    case None => 0
    case Some(end) => 1 + LinesFrom(file, end)
  }

  function Print(file: seq<Byte>, from: nat, end: nat): seq<Byte>
    requires from <= end <= |file|
  {
    file[from..from + Min(end - from, PRINT_BYTES)]
  }

  /** The watermark is believed while the line it names is still there. */
  predicate Trusted(file: seq<Byte>, mark: Option<Mark>) {
    mark.Some? && mark.value.last <= mark.value.end <= |file|
    && Print(file, mark.value.last, mark.value.end) == mark.value.head
  }

  /** What reading lines from `at` comes to.  `room` is how many index writes
      succeed before one fails. */
  datatype Scanned = Scanned(ok: bool, end: nat, last: nat, wrote: seq<string>)

  function Scan(parse: Parser, file: seq<Byte>, at: nat, last: nat, limit: nat,
                ids: set<string>, room: nat): (r: Scanned)
    requires at <= |file|
    ensures at <= r.end <= |file|
    decreases |file| - at
  {
    var next := LineEnd(file, at);
    if at >= limit || next.None? then Scanned(true, at, last, [])
    else
      var id := parse(file[at..next.value - 1]);
      if id.None? || id.value in ids then Scan(parse, file, next.value, at, limit, ids, room)
      else if room == 0 then Scanned(false, at, last, [])
      else
        var rest := Scan(parse, file, next.value, at, limit, ids + {id.value}, room - 1);
        rest.(wrote := [id.value] + rest.wrote)
  }

  /** `Scan` of what is left, put after what was written so far. */
  function Prefixed(wrote: seq<string>, r: Scanned): Scanned {
    r.(wrote := wrote + r.wrote)
  }

  /** The line names an event the index lacks. */
  predicate Missing(ids: set<string>, id: Option<string>) {
    id.Some? && id.value !in ids
  }

  /** One line of a scan, put after what was written so far. */
  lemma ScanTakes(parse: Parser, file: seq<Byte>, at: nat, last: nat, limit: nat,
                  ids: set<string>, room: nat, wrote: seq<string>)
    requires at <= |file| && at < limit && LineEnd(file, at).Some?
    ensures var id, end := parse(file[at..LineEnd(file, at).value - 1]), LineEnd(file, at).value;
            var scan := Prefixed(wrote, Scan(parse, file, at, last, limit, ids, room));
            if !Missing(ids, id) then
              scan == Prefixed(wrote + [], Scan(parse, file, end, at, limit, ids + SetOf([]), room))
            else if room == 0 then scan == Scanned(false, at, last, wrote + [])
            else scan == Prefixed(wrote + [id.value],
                                  Scan(parse, file, end, at, limit, ids + SetOf([id.value]), room - 1))
  {
    assert wrote + [] == wrote && ids + SetOf([]) == ids;
    var id := parse(file[at..LineEnd(file, at).value - 1]);
    if Missing(ids, id) {
      assert SetOf([id.value]) == {id.value};
    }
  }

  lemma ScanStops(parse: Parser, file: seq<Byte>, at: nat, last: nat, limit: nat,
                  ids: set<string>, room: nat, wrote: seq<string>)
    requires at <= |file| && (at >= limit || LineEnd(file, at).None?)
    ensures Prefixed(wrote, Scan(parse, file, at, last, limit, ids, room)) == Scanned(true, at, last, wrote)
  {
    assert wrote + [] == wrote;
  }

  function SetOf(s: seq<string>): set<string> {
    set id | id in s
  }

  lemma WroteMore(ids: set<string>, writes: seq<string>, wrote: seq<string>, more: seq<string>)
    ensures ids + SetOf(wrote) + SetOf(more) == ids + SetOf(wrote + more)
    ensures writes + wrote + more == writes + (wrote + more)
  {
    SetOfConcat(wrote, more);
  }

  lemma SetOfConcat(a: seq<string>, b: seq<string>)
    ensures SetOf(a + b) == SetOf(a) + SetOf(b)
  {
  }

  datatype Caught = Caught(ok: bool, mark: Option<Mark>, wrote: seq<string>)

  function StartOf(file: seq<Byte>, mark: Option<Mark>): nat {
    if Trusted(file, mark) then mark.value.end else 0
  }

  function LastOf(file: seq<Byte>, mark: Option<Mark>): nat {
    if Trusted(file, mark) then mark.value.last else 0
  }

  /** One catch-up of a file, as a function of what it reads. */
  function CatchUp(parse: Parser, file: seq<Byte>, mark: Option<Mark>, ids: set<string>,
                   budget: nat, room: nat): Caught
  {
    var start := StartOf(file, mark);
    if start == |file| then Caught(true, mark, [])
    else
      ScanBounds(parse, file, start, LastOf(file, mark), start + budget, ids, room);
      var r := Scan(parse, file, start, LastOf(file, mark), start + budget, ids, room);
      if !r.ok then Caught(false, mark, r.wrote)
      else Caught(true, Some(Mark(r.end, r.last, Print(file, r.last, r.end))), r.wrote)
  }

  lemma {:induction false} ScanBounds(parse: Parser, file: seq<Byte>, at: nat, last: nat, limit: nat,
                                      ids: set<string>, room: nat)
    requires last <= at <= |file|
    ensures var r := Scan(parse, file, at, last, limit, ids, room); r.last <= r.end
    decreases |file| - at
  {
    var next := LineEnd(file, at);
    if at < limit && next.Some? {
      var id := parse(file[at..next.value - 1]);
      if id.None? || id.value in ids {
        ScanBounds(parse, file, next.value, at, limit, ids, room);
      } else if room > 0 {
        ScanBounds(parse, file, next.value, at, limit, ids + {id.value}, room - 1);
      }
    }
  }

  /** The store, as far as the catch-up uses it.  `room` is how many index
      writes succeed before one fails: a busy database, seen from here. */
  class Store {
    var ids: set<string>
    var marks: map<string, Mark>
    var writes: seq<string>
    var room: nat

    constructor (ids: set<string>, room: nat)
      ensures this.ids == ids && marks == map[] && writes == [] && this.room == room
    {
      this.ids, marks, writes, this.room := ids, map[], [], room;
    }

    method Index(id: string) returns (ok: bool)
      modifies this
      ensures ok == (old(room) > 0) && marks == old(marks)
      ensures ok ==> ids == old(ids) + {id} && writes == old(writes) + [id] && room == old(room) - 1
      ensures !ok ==> ids == old(ids) && writes == old(writes) && room == old(room)
    {
      ok := room > 0;
      if ok {
        ids, writes, room := ids + {id}, writes + [id], room - 1;
      }
    }

    /** Indexes an event the index lacks; nothing to do for a line that is none. */
    method IndexNew(id: Option<string>) returns (ok: bool, ghost wrote: seq<string>)
      modifies this
      ensures ok == (Missing(old(ids), id) ==> old(room) > 0) && marks == old(marks)
      ensures wrote == if Missing(old(ids), id) && ok then [id.value] else []
      ensures ids == old(ids) + SetOf(wrote) && writes == old(writes) + wrote && room == old(room) - |wrote|
    {
      wrote := [];
      ok := true;
      if id.Some? && id.value !in ids {
        ok := Index(id.value);
        wrote := if ok then [id.value] else [];
      }
    }

    function MarkOf(key: string): Option<Mark>
      reads this
    {
      if key in marks then Some(marks[key]) else None
    }

    /** One turn of the reading loop: the line from `at` to `end`. */
    method TakeLine(parse: Parser, file: seq<Byte>, at: nat, ghost last: nat, end: nat, ghost limit: nat,
                    ghost ids0: set<string>, ghost writes0: seq<string>, ghost wrote: seq<string>,
                    ghost whole: Scanned)
      returns (ok: bool, ghost wrote': seq<string>)
      requires at <= |file| && at < limit && LineEnd(file, at) == Some(end)
      requires writes == writes0 + wrote && ids == ids0 + SetOf(wrote)
      requires Prefixed(wrote, Scan(parse, file, at, last, limit, ids, room)) == whole
      modifies this
      ensures marks == old(marks) && writes == writes0 + wrote' && ids == ids0 + SetOf(wrote')
      ensures if ok then Prefixed(wrote', Scan(parse, file, end, at, limit, ids, room)) == whole
              else whole == Scanned(false, at, last, wrote')
    {
      ScanTakes(parse, file, at, last, limit, ids, room, wrote);
      ghost var more;
      ok, more := IndexNew(parse(file[at..end - 1]));
      WroteMore(ids0, writes0, wrote, more);
      wrote' := wrote + more;
    }

    /** The reading loop: whole lines from `start`, until the budget is spent,
        the rest has no newline, or an index write fails. */
    method ReadLines(parse: Parser, file: seq<Byte>, start: nat, before: nat, budget: nat)
      returns (ok: bool, end: nat, last: nat)
      requires before <= start <= |file|
      modifies this
      ensures var r := Scan(parse, file, start, before, start + budget, old(ids), old(room));
              && ok == r.ok && (ok ==> end == r.end && last == r.last)
              && ids == old(ids) + SetOf(r.wrote)
              && writes == old(writes) + r.wrote
      ensures marks == old(marks)
    {
      end, last := start, before;
      ghost var ids0, writes0, limit := ids, writes, start + budget;
      ghost var wrote: seq<string> := [];
      ghost var whole := Scan(parse, file, start, before, limit, ids, room);
      while end - start < budget
        invariant start <= end <= |file|
        invariant marks == old(marks)
        invariant writes == writes0 + wrote && ids == ids0 + SetOf(wrote)
        invariant Prefixed(wrote, Scan(parse, file, end, last, limit, ids, room)) == whole
        decreases |file| - end
      {
        var next := LineEnd(file, end);
        if next.None? {
          break;
        }
        ok, wrote := TakeLine(parse, file, end, last, next.value, limit, ids0, writes0, wrote, whole);
        if !ok {
          return;
        }
        end, last := next.value, end;
      }
      ScanStops(parse, file, end, last, limit, ids, room, wrote);
      ok := true;
    }

    method CatchUpLog(parse: Parser, key: string, file: seq<Byte>, budget: nat) returns (ok: bool)
      modifies this
      ensures var r := CatchUp(parse, file, old(MarkOf(key)), old(ids), budget, old(room));
              && ok == r.ok
              && MarkOf(key) == r.mark
              && ids == old(ids) + SetOf(r.wrote)
              && writes == old(writes) + r.wrote
      ensures forall other :: other != key ==> MarkOf(other) == old(MarkOf(other))
    {
      var start: nat, last: nat := 0, 0;
      if key in marks && marks[key].last <= marks[key].end <= |file| {
        var now := Print(file, marks[key].last, marks[key].end);
        if now == marks[key].head {
          start, last := marks[key].end, marks[key].last;
        }
      }
      if start == |file| {
        return true;
      }
      ScanBounds(parse, file, start, last, start + budget, ids, room);
      var end;
      ok, end, last := ReadLines(parse, file, start, last, budget);
      if ok {
        marks := marks[key := Mark(end, last, Print(file, last, end))];
      }
    }
  }

}
