/** Applying a model's labels to one batch of knowledge entries. */
module Labels {
  import opened Basics

  /** Ids stand as numbers; they are only compared. */
  const STATUS_SECONDS := 14 * 24 * 3600

  /** A batch that would retire more than this many in ten is only labelled. */
  const GUARD_TENTHS := 8

  datatype Class = Durable | Status | History | RestatesCode

  datatype Reason = IsHistory | SaysTheCode | Expired

  /** `time` is none when the timestamp does not parse. */
  datatype Entry = Entry(id: nat, time: Option<int>, files: seq<string>)

  /** One label of the answer, whatever it says; no class when it names none. */
  datatype Label = Label(id: nat, kind: Option<Class>, cites: seq<string>, machine: bool)

  datatype Written =
    | Note(id: nat, kind: Class, expires: Option<int>, cites: seq<string>, machine: bool)
    | Tombstone(id: nat, reason: Reason)

  datatype Counts = Counts(history: nat, code: nat, expired: nat, guards: nat, shielded: nat)

  /** A labelled entry and why it would be retired. */
  datatype Decision = Decision(note: Written, reason: Option<Reason>)

  // ---- What one label decides. ----

  function Find(batch: seq<Entry>, id: nat): (r: Option<Entry>)
    ensures r.Some? ==> r.value in batch && r.value.id == id
    ensures r.None? ==> forall k :: 0 <= k < |batch| ==> batch[k].id != id
  {
    if batch == [] then None
    else if batch[0].id == id then Some(batch[0])
    else Find(batch[1..], id)
  }

  function Expiry(entry: Entry, kind: Class): Option<int> {
    if kind.Status? && entry.time.Some? then Some(entry.time.value + STATUS_SECONDS) else None
  }

  function ReasonFor(entry: Entry, kind: Class, now: int): Option<Reason> {
    match kind
    case History => Some(IsHistory)
    case RestatesCode => Some(SaysTheCode)
    case Status => if Expiry(entry, kind).Some? && Expiry(entry, kind).value <= now then Some(Expired) else None
    case Durable => None
  }

  function Decide(entry: Entry, said: Label, now: int): Decision
    requires said.kind.Some?
  {
    var kind := said.kind.value;
    Decision(
      Note(entry.id, kind, Expiry(entry, kind), Selected(entry.files, said.cites), said.machine),
      ReasonFor(entry, kind, now))
  }

  /** The label names a class and an entry of the batch. */
  predicate Usable(batch: seq<Entry>, said: Label) {
    said.kind.Some? && Find(batch, said.id).Some?
  }

  /** The first usable label for its entry. */
  predicate Deciding(batch: seq<Entry>, labels: seq<Label>, k: nat)
    requires k < |labels|
  {
    && Usable(batch, labels[k])
    && forall j :: 0 <= j < k && Usable(batch, labels[j]) ==> labels[j].id != labels[k].id
  }

  function Decisions(batch: seq<Entry>, labels: seq<Label>, now: int, n: nat): seq<Decision>
    requires n <= |labels|
  {
    if n == 0 then []
    else if !Deciding(batch, labels, n - 1) then Decisions(batch, labels, now, n - 1)
    else Decisions(batch, labels, now, n - 1) + [Decide(Find(batch, labels[n - 1].id).value, labels[n - 1], now)]
  }

  // ---- What is written. ----

  function Shield(d: Decision, human: set<nat>): Decision {
    if d.note.id in human then d.(reason := None) else d
  }

  function Shielded(ds: seq<Decision>, human: set<nat>): (r: seq<Decision>)
    ensures |r| == |ds|
  {
    seq(|ds|, k requires 0 <= k < |ds| => Shield(ds[k], human))
  }

  /** How many of the first `m` decisions would retire their page. */
  function Retiring(ds: seq<Decision>, m: nat): (n: nat)
    requires m <= |ds|
    ensures n <= m
  {
    if m == 0 then 0 else Retiring(ds, m - 1) + (if ds[m - 1].reason.Some? then 1 else 0)
  }

  predicate Guarded(batch: seq<Entry>, ds: seq<Decision>) {
    Retiring(ds, |ds|) * 10 > |batch| * GUARD_TENTHS
  }

  function Lines(d: Decision, guarded: bool): seq<Written> {
    if d.reason.Some? && !guarded then [d.note, Tombstone(d.note.id, d.reason.value)] else [d.note]
  }

  /** The lines of the first `m` decisions. */
  function AllLines(ds: seq<Decision>, guarded: bool, m: nat): seq<Written>
    requires m <= |ds|
  {
    if m == 0 then [] else AllLines(ds, guarded, m - 1) + Lines(ds[m - 1], guarded)
  }

  lemma {:induction false} DecisionsAreNotes(batch: seq<Entry>, labels: seq<Label>, now: int, n: nat)
    requires n <= |labels|
    ensures forall k :: 0 <= k < |Decisions(batch, labels, now, n)| ==>
              var d := Decisions(batch, labels, now, n)[k];
              && d.note.Note? && Find(batch, d.note.id).Some?
              && d.reason == ReasonFor(Find(batch, d.note.id).value, d.note.kind, now)
  {
    if n > 0 {
      DecisionsAreNotes(batch, labels, now, n - 1);
    }
  }

  /** Everything one batch's answer writes to the log, in order. */
  function Writes(batch: seq<Entry>, labels: seq<Label>, human: set<nat>, now: int): seq<Written> {
    DecisionsAreNotes(batch, labels, now, |labels|);
    var ds := Shielded(Decisions(batch, labels, now, |labels|), human);
    AllLines(ds, Guarded(batch, ds), |ds|)
  }

  function WithReason(c: Counts, r: Reason): Counts {
    match r
    case IsHistory => c.(history := c.history + 1)
    case SaysTheCode => c.(code := c.code + 1)
    case Expired => c.(expired := c.expired + 1)
  }

  function OfReason(lines: seq<Written>, r: Reason): nat {
    if lines == [] then 0
    else
      var last := lines[|lines| - 1];
      OfReason(lines[..|lines| - 1], r) + (if last == Tombstone(last.id, r) then 1 else 0)
  }

  lemma {:induction false} OfReasonPlus(a: seq<Written>, b: seq<Written>, r: Reason)
    ensures OfReason(a + b, r) == OfReason(a, r) + OfReason(b, r)
  {
    if b == [] {
      assert a + b == a;
    } else {
      assert (a + b)[..|a + b| - 1] == a + b[..|b| - 1];
      OfReasonPlus(a, b[..|b| - 1], r);
    }
  }

  /** The tallies by reason once these lines are counted. */
  function Tally(before: Counts, lines: seq<Written>): Counts {
    before.(
      history := before.history + OfReason(lines, IsHistory),
      code := before.code + OfReason(lines, SaysTheCode),
      expired := before.expired + OfReason(lines, Expired))
  }

  // ---- The program. ----

  /** The cleanup's log and tallies. */
  class Cursor {
    var log: seq<Written>
    var counts: Counts

    constructor ()
      ensures log == [] && counts == Counts(0, 0, 0, 0, 0)
    {
      log, counts := [], Counts(0, 0, 0, 0, 0);
    }

    method Apply(batch: seq<Entry>, labels: seq<Label>, human: set<nat>, now: int)
      modifies this
      ensures log == old(log) + Writes(batch, labels, human, now)
      ensures var tally := Tally(old(counts), Writes(batch, labels, human, now));
              counts == tally.(guards := counts.guards, shielded := counts.shielded)
      ensures counts.guards == old(counts).guards + (if Distrusted(batch, labels, human, now) then 1 else 0)
      ensures var ds := Decisions(batch, labels, now, |labels|);
              counts.shielded + Retiring(Shielded(ds, human), |ds|) == old(counts).shielded + Retiring(ds, |ds|)
    {
      DecisionsAreNotes(batch, labels, now, |labels|);
      var decided := DecideAll(batch, labels, now);
      decided := ShieldAll(decided, human);
      var retiring := 0;
      for k := 0 to |decided|
        invariant retiring == Retiring(decided, k)
      {
        if decided[k].reason.Some? {
          retiring := retiring + 1;
        }
      }
      var guarded := retiring * 10 > |batch| * GUARD_TENTHS;
      if guarded {
        counts := counts.(guards := counts.guards + 1);
      }
      WriteAll(decided, guarded);
    }

    /** For each decision the label first, then at most one tombstone. */
    method WriteAll(decided: seq<Decision>, guarded: bool)
      requires AllNotes(decided)
      modifies this
      ensures log == old(log) + AllLines(decided, guarded, |decided|)
      ensures counts == Tally(old(counts), AllLines(decided, guarded, |decided|))
    {
      for k := 0 to |decided|
        invariant log == old(log) + AllLines(decided, guarded, k)
        invariant counts == Tally(old(counts), AllLines(decided, guarded, k))
      {
        TallyStep(old(counts), decided, k, guarded);
        Associate(old(log), AllLines(decided, guarded, k), Lines(decided[k], guarded));
        WriteOne(decided[k], guarded);
      }
    }

    method WriteOne(d: Decision, guarded: bool)
      modifies this
      ensures log == old(log) + Lines(d, guarded)
      ensures counts == if d.reason.Some? && !guarded then WithReason(old(counts), d.reason.value) else old(counts)
    {
      log := log + [d.note];
      if d.reason.Some? && !guarded {
        log := log + [Tombstone(d.note.id, d.reason.value)];
        counts := WithReason(counts, d.reason.value);
      }
    }

    method DecideAll(batch: seq<Entry>, labels: seq<Label>, now: int) returns (decided: seq<Decision>)
      ensures decided == Decisions(batch, labels, now, |labels|)
    {
      var seen: set<nat> := {};
      decided := [];
      for k := 0 to |labels|
        invariant decided == Decisions(batch, labels, now, k)
        invariant forall id :: id in seen <==> exists j :: 0 <= j < k && Usable(batch, labels[j]) && labels[j].id == id
      {
        var said := labels[k];
        var entry := Find(batch, said.id);
        if entry.None? {
          continue;
        }
        if said.kind.None? {
          continue;
        }
        if said.id in seen {
          continue;
        }
        seen := seen + {said.id};
        decided := decided + [Decide(entry.value, said, now)];
      }
    }

    /** A page a person corrected is labelled but not retired. */
    method ShieldAll(decided: seq<Decision>, human: set<nat>) returns (r: seq<Decision>)
      modifies this
      ensures r == Shielded(decided, human)
      ensures log == old(log)
      ensures counts == old(counts).(shielded := counts.shielded)
      ensures counts.shielded + Retiring(r, |r|) == old(counts).shielded + Retiring(decided, |decided|)
    {
      r := [];
      for k := 0 to |decided|
        invariant r == Shielded(decided, human)[..k]
        invariant log == old(log) && counts == old(counts).(shielded := counts.shielded)
        invariant counts.shielded + Retiring(Shielded(decided, human), k) == old(counts).shielded + Retiring(decided, k)
      {
        var d := decided[k];
        if d.reason.Some? && d.note.id in human {
          d := d.(reason := None);
          counts := counts.(shielded := counts.shielded + 1);
        }
        r := r + [d];
      }
    }
  }

  lemma TallyStep(before: Counts, ds: seq<Decision>, k: nat, guarded: bool)
    requires AllNotes(ds) && k < |ds|
    ensures var now, d := Tally(before, AllLines(ds, guarded, k)), ds[k];
            Tally(before, AllLines(ds, guarded, k + 1)) ==
            if d.reason.Some? && !guarded then WithReason(now, d.reason.value) else now
  {
    TallyLines(before, AllLines(ds, guarded, k), ds[k], guarded);
  }

  lemma TallyLines(before: Counts, lines: seq<Written>, d: Decision, guarded: bool)
    requires d.note.Note?
    ensures var now := Tally(before, lines);
            Tally(before, lines + Lines(d, guarded)) ==
            if d.reason.Some? && !guarded then WithReason(now, d.reason.value) else now
  {
    CountLines(lines, d, guarded);
    var more := lines + Lines(d, guarded);
    assert OfReason(more, IsHistory) == OfReason(lines, IsHistory) + Gives(d, guarded, IsHistory);
    assert OfReason(more, SaysTheCode) == OfReason(lines, SaysTheCode) + Gives(d, guarded, SaysTheCode);
    assert OfReason(more, Expired) == OfReason(lines, Expired) + Gives(d, guarded, Expired);
  }

  /** One tombstone with this reason, or none. */
  function Gives(d: Decision, guarded: bool, r: Reason): nat {
    if d.reason == Some(r) && !guarded then 1 else 0
  }

  lemma CountLines(before: seq<Written>, d: Decision, guarded: bool)
    requires d.note.Note?
    ensures forall r: Reason :: OfReason(before + Lines(d, guarded), r) ==
              OfReason(before, r) + Gives(d, guarded, r)
  {
    forall r: Reason
      ensures OfReason(before + Lines(d, guarded), r) ==
              OfReason(before, r) + Gives(d, guarded, r)
    {
      OfReasonPlus(before, Lines(d, guarded), r);
      var lines := Lines(d, guarded);
      assert lines[..0] == [] && lines[..1] == [d.note] && [d.note][..0] == [];
      assert OfReason([d.note], r) == 0;
    }
  }

  // ---- What an answer can do, for every list of labels. ----

  /** An entry's decision is its first usable label's. */
  lemma {:induction false} DecisionIff(batch: seq<Entry>, labels: seq<Label>, now: int, n: nat, d: Decision)
    requires n <= |labels|
    ensures d in Decisions(batch, labels, now, n) <==>
            exists k: nat :: k < n && Deciding(batch, labels, k)
                             && d == Decide(Find(batch, labels[k].id).value, labels[k], now)
  {
    if n > 0 {
      DecisionIff(batch, labels, now, n - 1, d);
      if Deciding(batch, labels, n - 1) {
        var last := Decide(Find(batch, labels[n - 1].id).value, labels[n - 1], now);
        LastOfMany(Decisions(batch, labels, now, n - 1), last, d);
      }
    }
  }

  lemma LastOfMany(before: seq<Decision>, last: Decision, d: Decision)
    ensures d in before + [last] <==> d in before || d == last
  {
  }

  predicate OnePerEntry(ds: seq<Decision>) {
    forall i, j :: 0 <= i < j < |ds| ==> ds[i].note.id != ds[j].note.id
  }

  lemma {:induction false} DecidedOnce(batch: seq<Entry>, labels: seq<Label>, now: int, n: nat)
    requires n <= |labels|
    ensures OnePerEntry(Decisions(batch, labels, now, n))
  {
    if n > 0 {
      DecidedOnce(batch, labels, now, n - 1);
      var before := Decisions(batch, labels, now, n - 1);
      forall i | 0 <= i < |before| && Deciding(batch, labels, n - 1)
        ensures before[i].note.id != labels[n - 1].id
      {
        DecisionIff(batch, labels, now, n - 1, before[i]);
      }
    }
  }

  /** The lines about one entry. */
  function About(lines: seq<Written>, id: nat): seq<Written> {
    if lines == [] then []
    else About(lines[..|lines| - 1], id) + (if lines[|lines| - 1].id == id then [lines[|lines| - 1]] else [])
  }

  lemma {:induction false} AboutPlus(a: seq<Written>, b: seq<Written>, id: nat)
    ensures About(a + b, id) == About(a, id) + About(b, id)
  {
    if b == [] {
      assert a + b == a;
    } else {
      assert (a + b)[..|a + b| - 1] == a + b[..|b| - 1];
      AboutPlus(a, b[..|b| - 1], id);
    }
  }

  lemma AboutLines(d: Decision, guarded: bool, id: nat)
    requires d.note.Note?
    ensures About(Lines(d, guarded), id) == if d.note.id == id then Lines(d, guarded) else []
  {
    var lines := Lines(d, guarded);
    assert lines[..0] == [] && lines[..1] == [d.note] && [d.note][..0] == [];
    assert About([d.note], id) == if d.note.id == id then [d.note] else [];
  }

  predicate AllNotes(ds: seq<Decision>) {
    forall k :: 0 <= k < |ds| ==> ds[k].note.Note?
  }

  /** The lines about one entry, decision by decision. */
  function Own(ds: seq<Decision>, guarded: bool, m: nat, id: nat): seq<Written>
    requires m <= |ds|
  {
    if m == 0 then []
    else if ds[m - 1].note.id != id then Own(ds, guarded, m - 1, id)
    else Own(ds, guarded, m - 1, id) + Lines(ds[m - 1], guarded)
  }

  lemma AboutStep(before: seq<Written>, d: Decision, guarded: bool, id: nat)
    requires d.note.Note?
    ensures About(before + Lines(d, guarded), id) ==
            if d.note.id == id then About(before, id) + Lines(d, guarded) else About(before, id)
  {
    AboutPlus(before, Lines(d, guarded), id);
    AboutLines(d, guarded, id);
    assert About(before, id) + [] == About(before, id);
  }

  lemma {:induction false} AboutIsOwn(ds: seq<Decision>, guarded: bool, m: nat, id: nat)
    requires AllNotes(ds) && m <= |ds|
    ensures About(AllLines(ds, guarded, m), id) == Own(ds, guarded, m, id)
  {
    if m > 0 {
      var before, d := AllLines(ds, guarded, m - 1), ds[m - 1];
      AboutIsOwn(ds, guarded, m - 1, id);
      AboutStep(before, d, guarded, id);
      assert AllLines(ds, guarded, m) == before + Lines(d, guarded);
    }
  }

  lemma {:induction false} OwnNone(ds: seq<Decision>, guarded: bool, m: nat, id: nat)
    requires m <= |ds| && forall k :: 0 <= k < m ==> ds[k].note.id != id
    ensures Own(ds, guarded, m, id) == []
  {
    if m > 0 {
      OwnNone(ds, guarded, m - 1, id);
    }
  }

  /** Each entry's lines are those of its one decision. */
  lemma {:induction false} OwnOne(ds: seq<Decision>, guarded: bool, m: nat, k: nat)
    requires OnePerEntry(ds) && k < m <= |ds|
    ensures Own(ds, guarded, m, ds[k].note.id) == Lines(ds[k], guarded)
  {
    if k < m - 1 {
      OwnOne(ds, guarded, m - 1, k);
    } else {
      OwnNone(ds, guarded, k, ds[k].note.id);
      assert [] + Lines(ds[k], guarded) == Lines(ds[k], guarded);
    }
  }

  /** Whether the batch's answer would retire too many to be believed. */
  predicate Distrusted(batch: seq<Entry>, labels: seq<Label>, human: set<nat>, now: int) {
    Guarded(batch, Shielded(Decisions(batch, labels, now, |labels|), human))
  }

  // ---- What an answer says, label by label. ----

  /** The entry of the batch with this id. */
  predicate IsEntry(batch: seq<Entry>, m: nat, id: nat) {
    m < |batch| && batch[m].id == id && forall j :: 0 <= j < m ==> batch[j].id != id
  }

  /** The label is the first for an entry of the batch that names a class. */
  predicate Heard(batch: seq<Entry>, labels: seq<Label>, k: nat) {
    && k < |labels| && labels[k].kind.Some?
    && (exists m :: 0 <= m < |batch| && batch[m].id == labels[k].id)
    && forall j :: 0 <= j < k && labels[j].id == labels[k].id ==> labels[j].kind.None?
  }

  /** A status note holds for fourteen days. */
  function GoneBy(time: Option<int>): Option<int> {
    if time.Some? then Some(time.value + 14 * 24 * 3600) else None
  }

  /** Why a page of this class would be withdrawn. */
  function Against(kind: Class, time: Option<int>, now: int): Option<Reason> {
    if kind == History then Some(IsHistory)
    else if kind == RestatesCode then Some(SaysTheCode)
    else if kind == Status && time.Some? && time.value + 14 * 24 * 3600 <= now then Some(Expired)
    else None
  }

  /** The label counts, gives a reason, and no person has corrected the page. */
  predicate Condemns(batch: seq<Entry>, labels: seq<Label>, human: set<nat>, now: int, k: nat) {
    && Heard(batch, labels, k) && labels[k].id !in human
    && exists m :: 0 <= m < |batch| && IsEntry(batch, m, labels[k].id)
                   && Against(labels[k].kind.value, batch[m].time, now).Some?
  }

  function Condemning(batch: seq<Entry>, labels: seq<Label>, human: set<nat>, now: int, n: nat): nat {
    if n == 0 then 0
    else Condemning(batch, labels, human, now, n - 1) + (if Condemns(batch, labels, human, now, n - 1) then 1 else 0)
  }

  /** The answer condemns more than eight in ten of the batch. */
  predicate TooMany(batch: seq<Entry>, labels: seq<Label>, human: set<nat>, now: int) {
    Condemning(batch, labels, human, now, |labels|) * 10 > |batch| * 8
  }

  lemma {:induction false} FindIs(batch: seq<Entry>, id: nat)
    ensures if Find(batch, id).None? then forall m :: 0 <= m < |batch| ==> batch[m].id != id
            else exists m :: 0 <= m < |batch| && IsEntry(batch, m, id) && batch[m] == Find(batch, id).value
  {
    if batch != [] && batch[0].id != id {
      FindIs(batch[1..], id);
      if Find(batch, id).Some? {
        var m :| 0 <= m < |batch[1..]| && IsEntry(batch[1..], m, id) && batch[1..][m] == Find(batch, id).value;
        assert forall j :: 0 < j < m + 1 ==> batch[j] == batch[1..][j - 1];
        assert IsEntry(batch, m + 1, id);
      }
    } else if batch != [] {
      assert IsEntry(batch, 0, id);
    }
  }

  lemma EntryIsFound(batch: seq<Entry>, m: nat, id: nat)
    requires IsEntry(batch, m, id)
    ensures Find(batch, id) == Some(batch[m])
  {
    FindIs(batch, id);
  }

  lemma HeardIff(batch: seq<Entry>, labels: seq<Label>, k: nat)
    requires k < |labels|
    ensures Heard(batch, labels, k) <==> Deciding(batch, labels, k)
  {
    FindIs(batch, labels[k].id);
  }

  lemma CondemnsIff(batch: seq<Entry>, labels: seq<Label>, human: set<nat>, now: int, k: nat)
    requires k < |labels|
    ensures Condemns(batch, labels, human, now, k) <==>
            && Deciding(batch, labels, k) && labels[k].id !in human
            && Decide(Find(batch, labels[k].id).value, labels[k], now).reason.Some?
  {
    HeardIff(batch, labels, k);
    if Deciding(batch, labels, k) {
      FindIs(batch, labels[k].id);
      forall m | 0 <= m < |batch| && IsEntry(batch, m, labels[k].id)
        ensures Find(batch, labels[k].id) == Some(batch[m])
      {
        EntryIsFound(batch, m, labels[k].id);
      }
    }
  }

  lemma {:induction false} CondemningIs(batch: seq<Entry>, labels: seq<Label>, human: set<nat>, now: int, n: nat)
    requires n <= |labels|
    ensures var ds := Shielded(Decisions(batch, labels, now, n), human);
            Retiring(ds, |ds|) == Condemning(batch, labels, human, now, n)
  {
    if n > 0 {
      CondemningIs(batch, labels, human, now, n - 1);
      CondemnsIff(batch, labels, human, now, n - 1);
      var before := Decisions(batch, labels, now, n - 1);
      var ds := Shielded(Decisions(batch, labels, now, n), human);
      RetiringBelow(Shielded(before, human), ds, |before|);
    }
  }

  lemma {:induction false} RetiringBelow(a: seq<Decision>, b: seq<Decision>, m: nat)
    requires m <= |a| && m <= |b| && forall k :: 0 <= k < m ==> a[k] == b[k]
    ensures Retiring(a, m) == Retiring(b, m)
  {
    if m > 0 {
      RetiringBelow(a, b, m - 1);
    }
  }

  lemma DistrustedIff(batch: seq<Entry>, labels: seq<Label>, human: set<nat>, now: int)
    ensures Distrusted(batch, labels, human, now) <==> TooMany(batch, labels, human, now)
  {
    CondemningIs(batch, labels, human, now, |labels|);
  }

  /** The files of the entry that the label names, each once. */
  predicate CitesOf(files: seq<string>, named: seq<string>, cites: seq<string>) {
    Distinct(cites) && (forall c :: c in cites ==> c in named && c in files)
    && (forall c :: c in named && c in files ==> c in cites)
  }

  /** For an entry of the batch the first label that names a class decides: one
      note with that class, a status's with its end fourteen days on, citing the
      entry's own files the label names; then one tombstone exactly if the class
      speaks against the page, no person has corrected it, and the answer does not
      condemn more than eight in ten of the batch. */
  lemma WrittenForEntry(batch: seq<Entry>, labels: seq<Label>, human: set<nat>, now: int, k: nat, m: nat)
    requires Heard(batch, labels, k) && IsEntry(batch, m, labels[k].id)
    ensures var id, kind := labels[k].id, labels[k].kind.value;
            var reason := Against(kind, batch[m].time, now);
            var expires := if kind == Status then GoneBy(batch[m].time) else None;
            exists cites :: CitesOf(batch[m].files, labels[k].cites, cites)
              && About(Writes(batch, labels, human, now), id) ==
                 [Note(id, kind, expires, cites, labels[k].machine)]
                 + (if reason.Some? && id !in human && !TooMany(batch, labels, human, now)
                    then [Tombstone(id, reason.value)] else [])
  {
    HeardIff(batch, labels, k);
    EntryIsFound(batch, m, labels[k].id);
    DistrustedIff(batch, labels, human, now);
    DecidedLines(batch, labels, human, now, k);
    var cites := Selected(batch[m].files, labels[k].cites);
    assert CitesOf(batch[m].files, labels[k].cites, cites);
  }

  lemma DecidedLines(batch: seq<Entry>, labels: seq<Label>, human: set<nat>, now: int, k: nat)
    requires k < |labels| && Deciding(batch, labels, k)
    ensures var d := Decide(Find(batch, labels[k].id).value, labels[k], now);
            About(Writes(batch, labels, human, now), labels[k].id) ==
            [d.note] + (if d.reason.Some? && labels[k].id !in human && !Distrusted(batch, labels, human, now)
                        then [Tombstone(labels[k].id, d.reason.value)] else [])
  {
    var all := Decisions(batch, labels, now, |labels|);
    var ds := Shielded(all, human);
    var d := Decide(Find(batch, labels[k].id).value, labels[k], now);
    DecisionIff(batch, labels, now, |labels|, d);
    DecisionsAreNotes(batch, labels, now, |labels|);
    DecidedOnce(batch, labels, now, |labels|);
    var i :| 0 <= i < |all| && all[i] == d;
    LinesOfOne(ds, Guarded(batch, ds), i);
    ShieldedLines(d, human, Guarded(batch, ds));
    assert ds[i] == Shield(d, human);
  }

  lemma ShieldedLines(d: Decision, human: set<nat>, guarded: bool)
    ensures Lines(Shield(d, human), guarded) ==
            [d.note] + (if d.reason.Some? && d.note.id !in human && !guarded
                        then [Tombstone(d.note.id, d.reason.value)] else [])
  {
  }

  lemma LinesOfOne(ds: seq<Decision>, guarded: bool, i: nat)
    requires AllNotes(ds) && OnePerEntry(ds) && i < |ds|
    ensures About(AllLines(ds, guarded, |ds|), ds[i].note.id) == Lines(ds[i], guarded)
  {
    OwnOne(ds, guarded, |ds|, i);
    AboutIsOwn(ds, guarded, |ds|, ds[i].note.id);
  }

  // ---- In the order of the labels. ----

  /** Two labels that count, this one's entry before that one's. */
  predicate HeardInOrder(batch: seq<Entry>, labels: seq<Label>, a: nat, b: nat) {
    exists j, k :: 0 <= j < k < |labels| && Heard(batch, labels, j) && Heard(batch, labels, k)
                   && labels[j].id == a && labels[k].id == b
  }

  /** The same of labels that decide, among the first `n`. */
  predicate DecidedInOrder(batch: seq<Entry>, labels: seq<Label>, n: nat, a: nat, b: nat)
    requires n <= |labels|
  {
    exists j, k :: 0 <= j < k < n && Deciding(batch, labels, j) && Deciding(batch, labels, k)
                   && labels[j].id == a && labels[k].id == b
  }

  lemma {:induction false} DecisionsInOrder(batch: seq<Entry>, labels: seq<Label>, now: int, n: nat, i: nat, j: nat)
    requires n <= |labels| && i < j < |Decisions(batch, labels, now, n)|
    ensures var ds := Decisions(batch, labels, now, n);
            DecidedInOrder(batch, labels, n, ds[i].note.id, ds[j].note.id)
  {
    var ds := Decisions(batch, labels, now, n);
    if !Deciding(batch, labels, n - 1) || j < |ds| - 1 {
      DecisionsInOrder(batch, labels, now, n - 1, i, j);
    } else {
      DecisionIff(batch, labels, now, n - 1, ds[i]);
      var k: nat :| k < n - 1 && Deciding(batch, labels, k)
                    && ds[i] == Decide(Find(batch, labels[k].id).value, labels[k], now);
      assert labels[k].id == ds[i].note.id && labels[n - 1].id == ds[j].note.id;
    }
  }

  /** The decision a line is written for. */
  predicate LineOf(ds: seq<Decision>, m: nat, x: Written, i: nat)
    requires m <= |ds|
  {
    i < m && x.id == ds[i].note.id
  }

  lemma {:induction false} LinesInOrder(ds: seq<Decision>, guarded: bool, m: nat, a: nat, b: nat)
    requires AllNotes(ds) && m <= |ds| && a <= b < |AllLines(ds, guarded, m)|
    ensures var lines := AllLines(ds, guarded, m);
            exists i: nat, j: nat :: i <= j && LineOf(ds, m, lines[a], i) && LineOf(ds, m, lines[b], j)
  {
    var lines, before := AllLines(ds, guarded, m), AllLines(ds, guarded, m - 1);
    assert lines == before + Lines(ds[m - 1], guarded);
    if b < |before| {
      LinesInOrder(ds, guarded, m - 1, a, b);
      var i: nat, j: nat :| i <= j && LineOf(ds, m - 1, before[a], i) && LineOf(ds, m - 1, before[b], j);
      assert LineOf(ds, m, lines[a], i) && LineOf(ds, m, lines[b], j);
    } else if a < |before| {
      LinesInOrder(ds, guarded, m - 1, a, a);
      var i: nat, j: nat :| i <= j && LineOf(ds, m - 1, before[a], i) && LineOf(ds, m - 1, before[a], j);
      assert LineOf(ds, m, lines[a], i) && LineOf(ds, m, lines[b], m - 1);
    } else {
      assert LineOf(ds, m, lines[a], m - 1) && LineOf(ds, m, lines[b], m - 1);
    }
  }

  /** The lines about different entries stand in the log in the order of the labels
      that decided them. */
  lemma WrittenInOrder(batch: seq<Entry>, labels: seq<Label>, human: set<nat>, now: int, a: nat, b: nat)
    requires a < b < |Writes(batch, labels, human, now)|
    requires Writes(batch, labels, human, now)[a].id != Writes(batch, labels, human, now)[b].id
    ensures var lines := Writes(batch, labels, human, now);
            HeardInOrder(batch, labels, lines[a].id, lines[b].id)
  {
    var ds := Shielded(Decisions(batch, labels, now, |labels|), human);
    var lines := Writes(batch, labels, human, now);
    DecisionsAreNotes(batch, labels, now, |labels|);
    LinesInOrder(ds, Guarded(batch, ds), |ds|, a, b);
    var i: nat, j: nat :| i <= j && LineOf(ds, |ds|, lines[a], i) && LineOf(ds, |ds|, lines[b], j);
    ShieldedInOrder(batch, labels, human, now, i, j);
  }

  lemma ShieldedInOrder(batch: seq<Entry>, labels: seq<Label>, human: set<nat>, now: int, i: nat, j: nat)
    requires i < j < |Decisions(batch, labels, now, |labels|)|
    ensures var ds := Shielded(Decisions(batch, labels, now, |labels|), human);
            HeardInOrder(batch, labels, ds[i].note.id, ds[j].note.id)
  {
    var all := Decisions(batch, labels, now, |labels|);
    DecisionsInOrder(batch, labels, now, |labels|, i, j);
    DecidedIsHeard(batch, labels, all[i].note.id, all[j].note.id);
  }

  lemma DecidedIsHeard(batch: seq<Entry>, labels: seq<Label>, a: nat, b: nat)
    requires DecidedInOrder(batch, labels, |labels|, a, b)
    ensures HeardInOrder(batch, labels, a, b)
  {
    var j, k :| 0 <= j < k < |labels| && Deciding(batch, labels, j) && Deciding(batch, labels, k)
                && labels[j].id == a && labels[k].id == b;
    HeardIff(batch, labels, j);
    HeardIff(batch, labels, k);
  }

  /** Nothing else is touched: no id outside the batch, none without a label. */
  lemma NothingElseWritten(batch: seq<Entry>, labels: seq<Label>, human: set<nat>, now: int, id: nat)
    requires forall k :: 0 <= k < |labels| && Heard(batch, labels, k) ==> labels[k].id != id
    ensures About(Writes(batch, labels, human, now), id) == []
  {
    forall k: nat | k < |labels|
      ensures Heard(batch, labels, k) <==> Deciding(batch, labels, k)
    {
      HeardIff(batch, labels, k);
    }
    var all := Decisions(batch, labels, now, |labels|);
    var ds := Shielded(all, human);
    DecisionsAreNotes(batch, labels, now, |labels|);
    forall i | 0 <= i < |all|
      ensures all[i].note.id != id
    {
      DecisionIff(batch, labels, now, |labels|, all[i]);
    }
    OwnNone(ds, Guarded(batch, ds), |ds|, id);
    AboutIsOwn(ds, Guarded(batch, ds), |ds|, id);
  }

  /** An id outside the batch has no label that counts, and an entry of the
      batch has one exactly when some label for it names a class. */
  lemma LabelledIff(batch: seq<Entry>, labels: seq<Label>, id: nat)
    ensures (exists k :: 0 <= k < |labels| && Heard(batch, labels, k) && labels[k].id == id) <==>
            (exists e :: e in batch && e.id == id)
            && (exists k :: 0 <= k < |labels| && labels[k].kind.Some? && labels[k].id == id)
  {
    if (exists e :: e in batch && e.id == id)
       && (exists k :: 0 <= k < |labels| && labels[k].kind.Some? && labels[k].id == id) {
      var k: nat :| k < |labels| && labels[k].kind.Some? && labels[k].id == id;
      FirstUsable(batch, labels, k);
    }
  }

  lemma {:induction false} FirstUsable(batch: seq<Entry>, labels: seq<Label>, k: nat)
    requires k < |labels| && Usable(batch, labels[k])
    ensures exists j :: 0 <= j <= k && Deciding(batch, labels, j) && labels[j].id == labels[k].id
  {
    if !Deciding(batch, labels, k) {
      var j: nat :| j < k && Usable(batch, labels[j]) && labels[j].id == labels[k].id;
      FirstUsable(batch, labels, j);
    }
  }

  function Tombstones(lines: seq<Written>): nat {
    if lines == [] then 0 else Tombstones(lines[..|lines| - 1]) + (if lines[|lines| - 1].Tombstone? then 1 else 0)
  }

  lemma {:induction false} TombstonesPlus(a: seq<Written>, b: seq<Written>)
    ensures Tombstones(a + b) == Tombstones(a) + Tombstones(b)
  {
    if b == [] {
      assert a + b == a;
    } else {
      assert (a + b)[..|a + b| - 1] == a + b[..|b| - 1];
      TombstonesPlus(a, b[..|b| - 1]);
    }
  }

  lemma TombstonesOfOne(d: Decision, guarded: bool)
    requires d.note.Note?
    ensures Tombstones(Lines(d, guarded)) == if d.reason.Some? && !guarded then 1 else 0
  {
    var lines := Lines(d, guarded);
    assert lines[..0] == [] && lines[..1] == [lines[0]] && [lines[0]][..0] == [];
    assert Tombstones([lines[0]]) == 0;
  }

  lemma {:induction false} TombstonesAre(ds: seq<Decision>, guarded: bool, m: nat)
    requires AllNotes(ds) && m <= |ds|
    ensures Tombstones(AllLines(ds, guarded, m)) == if guarded then 0 else Retiring(ds, m)
  {
    if m > 0 {
      TombstonesAre(ds, guarded, m - 1);
      TombstonesPlus(AllLines(ds, guarded, m - 1), Lines(ds[m - 1], guarded));
      TombstonesOfOne(ds[m - 1], guarded);
    }
  }

  /** At most four fifths of a batch are retired, on any answer; and an answer
      held back had more reasons than that. */
  lemma AtMostFourFifths(batch: seq<Entry>, labels: seq<Label>, human: set<nat>, now: int)
    ensures Tombstones(Writes(batch, labels, human, now)) * 10 <= |batch| * 8
    ensures Tombstones(Writes(batch, labels, human, now)) ==
            if TooMany(batch, labels, human, now) then 0 else Condemning(batch, labels, human, now, |labels|)
  {
    CondemningIs(batch, labels, human, now, |labels|);
    DecisionsAreNotes(batch, labels, now, |labels|);
    var ds := Shielded(Decisions(batch, labels, now, |labels|), human);
    TombstonesAre(ds, Guarded(batch, ds), |ds|);
  }

  /** What a note cites are files of its entry that the label named, each once. */
  lemma CitesOwnFiles(batch: seq<Entry>, labels: seq<Label>, now: int, k: nat)
    requires k < |labels| && Deciding(batch, labels, k)
    ensures var entry := Find(batch, labels[k].id).value;
            var note := Decide(entry, labels[k], now).note;
            && Distinct(note.cites)
            && forall c :: c in note.cites <==> c in labels[k].cites && c in entry.files
  {
  }
}
