/** Moving a lesson to the machine, and bringing it back.

    The state is one lesson's: its row, its machine copies, and the lines about
    them in the two logs, in the order of their ids, which a rebuild follows.
    A line is appended first and indexed after; the process may die at any
    point, and a catch-up indexes later what it left out.  Both operations run
    under the run lock, one at a time, and so does the catch-up. */
module MachineMove {
  import opened Basics

  datatype Event =
    | Copied(c: nat)                      // a Knowledge on the machine, linking the lesson
    | Gone                                // a `clean` tombstone on the lesson
    | Back                                // a `restore` note for the lesson
    | CopyGone(c: nat)                    // a `clean` tombstone on a copy
    | Edited(c: nat)                      // a person's correction of a copy

  /** The index: whether the lesson is live, which copies it knows and which of
      them are live, whether the lesson was ever restored, and the copies it
      knows a person corrected. */
  datatype Index = Index(live: bool, copies: set<nat>, liveCopies: set<nat>, marked: bool, edited: set<nat>)

  /** Where the process that holds the lock is; `at` is the line it appended. */
  datatype Pc =
    | Idle
    | CopyAppended(c: nat, at: nat) | CopyIndexed(c: nat) | GoneAppended(c: nat, at: nat)
    | BackAppended(at: nat) | Retiring | RetireAppended(c: nat, at: nat)

  /** `pending` are the log positions the index has not seen. */
  datatype State = State(log: seq<Event>, pending: set<nat>, index: Index, pc: Pc)

  datatype Label =
    | AppendCopy(c: nat) | IndexCopy | AppendGone | IndexGone
    | AppendBack | IndexBack | AppendRetire(c: nat) | IndexRetire | EndRestore
    | Die
    | CatchUp(k: nat)
    | Edit(c: nat, indexed: bool)

  const START := State([], {}, Index(true, {}, {}, false, {}), Idle)

  // ---- `Store::index`, as it bears on the lesson. ----

  function Apply(x: Index, e: Event): Index {
    match e
    case Copied(c) =>
      if c in x.copies then x else x.(copies := x.copies + {c}, liveCopies := x.liveCopies + {c})
    case Gone => x.(live := false)
    case Back => x.(live := true, marked := true)
    case CopyGone(c) => x.(liveCopies := x.liveCopies - {c})
    case Edited(c) => if c in x.copies then x.(edited := x.edited + {c}) else x
  }

  /** The line is in the log; the index has yet to see it. */
  function Append(s: State, e: Event): State {
    s.(log := s.log + [e], pending := s.pending + {|s.log|})
  }

  // ---- The steps. ----

  predicate Wrote(s: State, at: nat, e: Event) {
    at < |s.log| && s.log[at] == e
  }

  predicate Enabled(s: State, l: Label) {
    match l
    // A live lesson the machine may take, never one a restore brought back.
    case AppendCopy(c) => s.pc.Idle? && s.index.live && !s.index.marked && Copied(c) !in s.log
    case IndexCopy => s.pc.CopyAppended? && Wrote(s, s.pc.at, Copied(s.pc.c))
    case AppendGone => s.pc.CopyIndexed?
    case IndexGone => s.pc.GoneAppended? && Wrote(s, s.pc.at, Gone)
    // The log has the run's tombstone and the index says a cleanup holds it.
    case AppendBack => s.pc.Idle? && Gone in s.log && !s.index.live
    case IndexBack => s.pc.BackAppended? && Wrote(s, s.pc.at, Back)
    case AppendRetire(c) =>
      && s.pc.Retiring? && Copied(c) in s.log && c !in s.index.edited
      && (c in s.index.liveCopies || c !in s.index.copies)
    case IndexRetire => s.pc.RetireAppended? && Wrote(s, s.pc.at, CopyGone(s.pc.c))
    case EndRestore => s.pc.Retiring?
    case Die => true
    case CatchUp(k) => s.pc.Idle? && k in s.pending && k < |s.log|
    case Edit(c, _) => c in s.index.liveCopies
  }

  /** Index a pending line. */
  function See(s: State, k: nat): State
    requires k < |s.log|
  {
    s.(pending := s.pending - {k}, index := Apply(s.index, s.log[k]))
  }

  function Result(s: State, l: Label): State
    requires Enabled(s, l)
  {
    match l
    case AppendCopy(c) => Append(s, Copied(c)).(pc := CopyAppended(c, |s.log|))
    case IndexCopy => See(s, s.pc.at).(pc := CopyIndexed(s.pc.c))
    case AppendGone => Append(s, Gone).(pc := GoneAppended(s.pc.c, |s.log|))
    case IndexGone => See(s, s.pc.at).(pc := Idle)
    case AppendBack => Append(s, Back).(pc := BackAppended(|s.log|))
    case IndexBack => See(s, s.pc.at).(pc := Retiring)
    case AppendRetire(c) => Append(s, CopyGone(c)).(pc := RetireAppended(c, |s.log|))
    case IndexRetire => See(s, s.pc.at).(pc := Retiring)
    case EndRestore => s.(pc := Idle)
    case Die => s.(pc := Idle)
    case CatchUp(k) => See(s, k)
    case Edit(c, indexed) => if indexed then See(Append(s, Edited(c)), |s.log|) else Append(s, Edited(c))
  }

  predicate Next(s: State, l: Label, t: State) {
    Enabled(s, l) && t == Result(s, l)
  }

  predicate IsRun(states: seq<State>, labels: seq<Label>) {
    && |states| == |labels| + 1 && states[0] == START
    && forall i :: 0 <= i < |labels| ==> Next(states[i], labels[i], states[i + 1])
  }

  // ---- What a reader finds. ----

  /** What a rebuild from the log finds of the lesson. */
  predicate LiveInLog(log: seq<Event>) {
    log == [] || (if log[|log| - 1].Gone? then false else if log[|log| - 1].Back? then true
                  else LiveInLog(log[..|log| - 1]))
  }

  predicate CopyLiveInLog(log: seq<Event>, c: nat) {
    Copied(c) in log && CopyGone(c) !in log
  }

  ghost predicate KeptInLog(log: seq<Event>) {
    LiveInLog(log) || exists c :: CopyLiveInLog(log, c)
  }

  predicate KeptInIndex(x: Index) {
    x.live || x.liveCopies != {}
  }
}
