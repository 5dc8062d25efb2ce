/** The machine-wide run lock and the asks that meet it.

    Every `brain consolidate` writes its ask down, tries the lock file without
    waiting, does its own ask, lets go of the lock and only then looks for asks
    nobody has taken.  This module is the transition system of that protocol:
    any number of invocations, interleaved at every store call and every file
    operation, with errors, kills, unreadable lock files and evictions.

    The history components `served`, `needless`, `failed` and `excused` record
    what the theorems speak about; no transition reads them. */
module RunLock {
  import opened Basics

  const MAX_DRAIN_ROUNDS: nat := 3

  /** What a row of `consolidation_requests` asks for. */
  datatype Ask = Ask(session: Option<string>, all: bool, force: bool, cwd: string)

  /** Two asks are one piece of work: an `--all` ask covers every project from
      any directory, so its directory does not tell it apart. */
  predicate SameWork(a: Ask, b: Ask) {
    && a.session == b.session
    && a.all == b.all
    && a.force == b.force
    && (a.all || a.cwd == b.cwd)
  }

  /** What an invocation wants the lock for. */
  datatype Goal =
    | OwnAsk(own: nat)
    | IdleSweep
    | Borrow                            // ingest, compact, restore: never drains
    | NextAsk(next: nat, drained: nat)

  datatype Job = Sweep | Serve(id: nat)

  /** Where one invocation stands. */
  datatype Pc =
    | Unborn
    | Wants(goal: Goal)                 // about to create the lock file
    | Refused(goal: Goal)               // the file existed; about to ask its age
    | Aged(goal: Goal, recent: bool)     // about to read the pid in it
    | Evicting(goal: Goal)              // judged the holder dead; about to remove the file
    | Entered(goal: Goal)               // created the lock file
    | Working(job: Job, upto: nat, drained: nat)
    | Quitting                          // holds the lock, will end without looking
    | Passing(drained: nat)             // holds the lock, done with one ask
    | Retrying(drained: nat)            // holds the lock, lost the row to another taker
    | Looking(drained: nat)             // let go of the lock, about to read the open asks
    | Ended
    | Dead                              // killed: its lock file stays behind

  predicate Holding(pc: Pc) {
    pc.Entered? || pc.Working? || pc.Quitting? || pc.Passing? || pc.Retrying?
  }

  predicate Active(pc: Pc) {
    !pc.Unborn? && !pc.Ended? && !pc.Dead?
  }

  datatype State = State(
    asks: seq<Ask>,                     // every row ever written, by id
    open: set<nat>,                     // rows with no `consumed_at`
    file: Option<nat>,                  // the lock file, by the invocation that wrote it
    procs: seq<Pc>,
    runs: seq<nat>,                     // executions begun by each invocation
    served: set<nat>,                   // asks done by an execution begun after they were written
    needless: set<nat>,                 // asks deleted open, no work being left, or the same work as one
    failed: set<nat>,                   // asks whose execution ended in an error or a kill
    excused: set<nat>)                  // asks undone when some invocation failed or left without looking
  {
    predicate Has(p: nat) { p < |procs| }
  }

  predicate Init(s: State) {
    && s.asks == [] && s.open == {} && s.file == None
    && |s.runs| == |s.procs|
    && (forall p :: 0 <= p < |s.procs| ==> s.procs[p] == Unborn && s.runs[p] == 0)
    && s.served == {} && s.needless == {} && s.failed == {} && s.excused == {}
  }

  datatype Label =
    | WriteAsk(p: nat, ask: Ask)
    | StartSweep(p: nat)
    | StartBorrow(p: nat)
    | Create(p: nat)
    | Stat(p: nat, stale: bool)
    | Read(p: nat, unknown: bool)
    | Evict(p: nat)
    | Consume(p: nat)
    | BeginSweep(p: nat)
    | DropStale(p: nat, idle: set<string>)
    | Touch(p: nat)
    | Finish(p: nat)
    | Unfinished(p: nat)
    | Return(p: nat)
    | Abort(p: nat)
    | Crash(p: nat)
    | Drop(p: nat, spent: bool)
    | Look(p: nat, oldest: Option<nat>)

  predicate Enabled(s: State, l: Label) {
    && s.Has(l.p)
    && var pc := s.procs[l.p];
       match l
       case WriteAsk(_, _) => pc.Unborn?
       case StartSweep(_) => pc.Unborn?
       case StartBorrow(_) => pc.Unborn?
       case Create(_) => pc.Wants?
       case Stat(_, _) => pc.Refused?
       case Read(_, _) => pc.Aged?
       case Evict(_) => pc.Evicting?
       case Consume(_) => pc.Entered? && (pc.goal.OwnAsk? || pc.goal.NextAsk?)
       case BeginSweep(_) => pc == Entered(IdleSweep)
       case DropStale(_, _) => pc.Working? && pc.drained == 0
       case Touch(_) => pc.Working?
       case Finish(_) => pc.Working?
       case Unfinished(_) => pc.Working?
       case Return(_) => pc == Entered(Borrow)
       case Abort(_) => Active(pc)
       case Crash(_) => Active(pc)
       case Drop(_, _) => pc.Quitting? || pc.Passing? || pc.Retrying?
       case Look(_, oldest) =>
         pc.Looking? && (if oldest.None? then s.open == {} else IsOldest(s.open, oldest.value))
  }

  /** The ids of the first `n` rows. */
  function Rows(n: nat): (r: set<nat>)
    ensures forall a: nat :: a in r <==> a < n
  {
    if n == 0 then {} else Rows(n - 1) + {n - 1}
  }

  /** Neither executed nor deleted for want of work. */
  function Undone(s: State): set<nat> {
    Rows(|s.asks|) - s.served - s.needless
  }

  /** Executed, or deleted for want of work. */
  predicate Done(s: State, a: nat) {
    a in s.served || a in s.needless
  }

  /** An invocation fails or leaves without looking: whatever is undone now may stay so. */
  function Forsake(s: State): State {
    s.(excused := s.excused + Undone(s))
  }

  function Goto(s: State, p: nat, pc: Pc): State
    requires s.Has(p)
  {
    s.(procs := s.procs[p := pc])
  }

  /** `id` is the open row read first (`ORDER BY id LIMIT 1`). */
  predicate IsOldest(open: set<nat>, id: nat) {
    id in open && forall other :: other in open ==> id <= other
  }

  /** Rows one `consume` takes: the row itself and every open row that is the same work. */
  function TakenWith(s: State, id: nat): set<nat>
    requires id < |s.asks|
  {
    {id} + set a | a in s.open && a < |s.asks| && SameWork(s.asks[a], s.asks[id])
  }

  /** Asks an execution of `id` stands for: the same work, written before it was consumed. */
  function StoodFor(s: State, id: nat, upto: nat): set<nat>
    requires id < |s.asks|
  {
    set a | a in Rows(|s.asks|) && a < upto && SameWork(s.asks[a], s.asks[id])
  }

  /** The asks an invocation that fails or is killed takes with it: those the
      execution in hand stands for stay taken. */
  function InHand(s: State, pc: Pc): set<nat>
    requires pc.Working? && pc.job.Serve? ==> pc.job.id < |s.asks|
  {
    if pc.Working? && pc.job.Serve? then StoodFor(s, pc.job.id, pc.upto) else {}
  }

  /** Rows that are the same work as one of these. */
  function SameWorkAs(s: State, gone: set<nat>): set<nat> {
    set a | a in Rows(|s.asks|) && exists g :: g in gone && g < |s.asks| && SameWork(s.asks[a], s.asks[g])
  }

  /** An ask, without force, for one of the sessions that have no events pending. */
  predicate NothingPending(ask: Ask, idle: set<string>) {
    ask.session.Some? && ask.session.value in idle && !ask.force
  }

  predicate WellFormed(s: State) {
    && |s.runs| == |s.procs|
    && (s.file.Some? ==> s.Has(s.file.value))
    && (forall a :: a in s.open ==> a < |s.asks|)
    && (forall p :: 0 <= p < |s.procs| && s.procs[p].Working? && s.procs[p].job.Serve? ==>
          s.procs[p].job.id < |s.asks| && s.procs[p].upto <= |s.asks|)
  }

  function Next(s: State, l: Label): State
    requires WellFormed(s) && Enabled(s, l)
  {
    var p, pc := l.p, s.procs[l.p];
    match l
    case WriteAsk(_, ask) =>
      Goto(s, p, Wants(OwnAsk(|s.asks|))).(asks := s.asks + [ask], open := s.open + {|s.asks|})
    case StartSweep(_) => Goto(s, p, Wants(IdleSweep))
    case StartBorrow(_) => Goto(s, p, Wants(Borrow))
    case Create(_) =>
      if s.file.None? then Goto(s, p, Entered(pc.goal)).(file := Some(p))
      else Goto(s, p, Refused(pc.goal))
    case Stat(_, stale) => Goto(s, p, Aged(pc.goal, s.file.Some? && !stale))
    case Read(_, unknown) =>
      var alive := if s.file.None? || unknown then pc.recent
                   else Active(s.procs[s.file.value]);
      if !alive then Goto(s, p, Evicting(pc.goal))
      else if DeadFile(s) then Forsake(Goto(s, p, Ended))
      else Goto(s, p, Ended)
    case Evict(_) => Goto(s, p, Wants(pc.goal)).(file := None)
    case Consume(_) =>
      var id := if pc.goal.OwnAsk? then pc.goal.own else pc.goal.next;
      if id in s.open then
        var drained := if pc.goal.OwnAsk? then 0 else pc.goal.drained + 1;
        Goto(s, p, Working(Serve(id), |s.asks|, drained)).(
          open := s.open - TakenWith(s, id), runs := s.runs[p := s.runs[p] + 1])
      else if pc.goal.OwnAsk? then Goto(s, p, Quitting)
      else Goto(s, p, Retrying(pc.goal.drained))
    case BeginSweep(_) => Goto(s, p, Working(Sweep, |s.asks|, 0)).(runs := s.runs[p := s.runs[p] + 1])
    case DropStale(_, idle) =>
      var gone := set a | a in s.open && NothingPending(s.asks[a], idle);
      s.(open := s.open - gone, needless := s.needless + SameWorkAs(s, gone))
    case Touch(_) => s.(file := Some(p))
    case Finish(_) =>
      var done := if pc.job.Sweep? then {} else StoodFor(s, pc.job.id, pc.upto);
      Goto(s, p, Passing(pc.drained)).(served := s.served + done)
    case Unfinished(_) =>
      var back := if pc.job.Sweep? then {} else {pc.job.id};
      Goto(s, p, Quitting).(open := s.open + back)
    case Return(_) => Goto(s, p, Quitting)
    case Abort(_) =>
      Forsake(Goto(s, p, if Holding(pc) then Quitting else Ended)).(failed := s.failed + InHand(s, pc))
    case Crash(_) => Forsake(Goto(s, p, Dead)).(failed := s.failed + InHand(s, pc))
    case Drop(_, spent) =>
      var free := s.(file := None);
      if pc.Retrying? then Goto(free, p, Looking(pc.drained))
      else if pc.Passing? && pc.drained < MAX_DRAIN_ROUNDS && !spent then Goto(free, p, Looking(pc.drained))
      else Forsake(Goto(free, p, Ended))
    case Look(_, oldest) =>
      if oldest.None? then Goto(s, p, Ended) else Goto(s, p, Wants(NextAsk(oldest.value, pc.drained)))
  }

  /** The lock file is one a killed invocation left behind. */
  predicate DeadFile(s: State)
    requires WellFormed(s)
  {
    s.file.Some? && s.procs[s.file.value].Dead?
  }
}
