/** Splitting a session's events into prompts, and building each prompt. */
module PromptChunks {
  import opened Basics
  import opened Utf8

  const PROMPT_MAX_BYTES := 24 * 1024

  /** The fixed parts of a prompt, and the line before a transcript. */
  datatype Wording = Wording(instructions: Text, part: Text, data: Text, header: Text)

  // ---- Groups of rendered events. ----

  function Concat(events: seq<Text>): Text {
    if events == [] then [] else Concat(events[..|events| - 1]) + events[|events| - 1]
  }

  function Size(events: seq<Text>): nat {
    Len(Concat(events))
  }

  function Flat(groups: seq<seq<Text>>): seq<Text> {
    if groups == [] then [] else Flat(groups[..|groups| - 1]) + groups[|groups| - 1]
  }

  /** What each group may take: the first pays for the transcript. */
  datatype Budget = Budget(first: nat, full: nat)

  function Room(budget: Budget, k: nat): nat {
    if k == 0 then budget.first else budget.full
  }

  predicate FitsRoom(budget: Budget, groups: seq<seq<Text>>, k: nat)
    requires k < |groups|
  {
    |groups[k]| == 1 || (|groups[k]| > 1 && Size(groups[k]) <= Room(budget, k))
  }

  /** A way to split the events: only a lone event may be over its room. */
  predicate IsSplit(budget: Budget, events: seq<Text>, groups: seq<seq<Text>>) {
    && Flat(groups) == events
    && forall k :: 0 <= k < |groups| ==> FitsRoom(budget, groups, k)
  }

  predicate IsFull(budget: Budget, groups: seq<seq<Text>>, k: nat)
    requires k + 1 < |groups| && groups[k + 1] != []
  {
    Size(groups[k]) + Len(groups[k + 1][0]) > Room(budget, k)
  }

  /** No group had room for the event after it. */
  predicate IsGreedy(budget: Budget, groups: seq<seq<Text>>) {
    forall k :: 0 <= k < |groups| - 1 && groups[k + 1] != [] ==> IsFull(budget, groups, k)
  }

  lemma SizePush(events: seq<Text>, e: Text)
    ensures Size(events + [e]) == Size(events) + Len(e)
  {
    assert (events + [e])[..|events|] == events;
    LenPlus(Concat(events), e);
  }

  lemma FlatPush(groups: seq<seq<Text>>, g: seq<Text>)
    ensures Flat(groups + [g]) == Flat(groups) + g
  {
    assert (groups + [g])[..|groups|] == groups;
  }

  // ---- The program. ----

  method Chunk(budget: Budget, events: seq<Text>) returns (chunks: seq<seq<Text>>)
    ensures IsSplit(budget, events, chunks) && IsGreedy(budget, chunks)
  {
    chunks := [];
    var current: seq<Text> := [];
    var size, room := 0, budget.first;
    for i := 0 to |events|
      invariant i > 0 ==> current != []
      invariant i == 0 ==> chunks == [] && current == []
      invariant size == Size(current) && room == Room(budget, |chunks|)
      invariant current != [] ==> IsSplit(budget, events[..i], chunks + [current])
      invariant current != [] ==> IsGreedy(budget, chunks + [current])
    {
      var cost := Len(events[i]);
      assert events[..i + 1] == events[..i] + [events[i]];
      if current != [] && size + cost > room {
        NewGroup(budget, events[..i], chunks, current, events[i]);
        chunks, current, size, room := chunks + [current], [], 0, budget.full;
      } else {
        SameGroup(budget, events[..i], chunks, current, events[i]);
      }
      SizePush(current, events[i]);
      size := size + cost;
      current := current + [events[i]];
    }
    assert events[..|events|] == events;
    if current != [] {
      chunks := chunks + [current];
    }
  }

  lemma NewGroup(budget: Budget, events: seq<Text>, groups: seq<seq<Text>>, current: seq<Text>, e: Text)
    requires IsSplit(budget, events, groups + [current]) && IsGreedy(budget, groups + [current])
    requires Size(current) + Len(e) > Room(budget, |groups|)
    ensures IsSplit(budget, events + [e], groups + [current] + [[] + [e]])
    ensures IsGreedy(budget, groups + [current] + [[] + [e]])
  {
    var before, after := groups + [current], groups + [current] + [[] + [e]];
    FlatPush(before, [e]);
    forall k | 0 <= k < |after|
      ensures FitsRoom(budget, after, k)
    {
      assert k < |before| ==> after[k] == before[k] && FitsRoom(budget, before, k);
    }
    forall k | 0 <= k < |after| - 1 && after[k + 1] != []
      ensures IsFull(budget, after, k)
    {
      assert k + 1 < |before| ==> after[k] == before[k] && after[k + 1] == before[k + 1] && IsFull(budget, before, k);
    }
  }

  lemma SameGroup(budget: Budget, events: seq<Text>, groups: seq<seq<Text>>, current: seq<Text>, e: Text)
    requires if current == [] then groups == [] && events == []
             else IsSplit(budget, events, groups + [current]) && IsGreedy(budget, groups + [current])
                  && Size(current) + Len(e) <= Room(budget, |groups|)
    ensures IsSplit(budget, events + [e], groups + [current + [e]])
    ensures IsGreedy(budget, groups + [current + [e]])
  {
    var before, after := groups + [current], groups + [current + [e]];
    FlatPush(groups, current);
    FlatPush(groups, current + [e]);
    Associate(Flat(groups), current, [e]);
    SizePush(current, e);
    if current != [] {
      forall k | 0 <= k < |after|
        ensures FitsRoom(budget, after, k)
      {
        assert FitsRoom(budget, before, k);
      }
      forall k | 0 <= k < |after| - 1 && after[k + 1] != []
        ensures IsFull(budget, after, k)
      {
        assert IsFull(budget, before, k);
      }
    }
  }

  /** The first group is held to the first budget, every other to the full one: none of
      several events is over its own, and each would be with the event after it. */
  lemma GroupsFill(budget: Budget, events: seq<Text>, groups: seq<seq<Text>>, k: nat)
    requires IsSplit(budget, events, groups) && IsGreedy(budget, groups) && k < |groups|
    ensures var room := if k == 0 then budget.first else budget.full;
            && groups[k] != [] && (|groups[k]| > 1 ==> Size(groups[k]) <= room)
            && (k + 1 < |groups| ==> groups[k + 1] != [] && Size(groups[k]) + Len(groups[k + 1][0]) > room)
  {
    assert FitsRoom(budget, groups, k);
    if k + 1 < |groups| {
      assert FitsRoom(budget, groups, k + 1) && IsFull(budget, groups, k);
    }
  }

  // ---- Greedy is the only such split, and the shortest. ----

  lemma {:induction false} ConcatPlus(a: seq<Text>, b: seq<Text>)
    ensures Concat(a + b) == Concat(a) + Concat(b)
  {
    if b == [] {
      assert a + b == a;
    } else {
      assert (a + b)[..|a + b| - 1] == a + b[..|b| - 1];
      ConcatPlus(a, b[..|b| - 1]);
      Associate(Concat(a), Concat(b[..|b| - 1]), b[|b| - 1]);
    }
  }

  /** A stretch of events takes at least what any stretch within it takes. */
  lemma SizeWithin(events: seq<Text>, i: nat, j: nat)
    requires i <= j <= |events|
    ensures Size(events[i..j]) <= Size(events)
  {
    assert events == events[..i] + events[i..j] + events[j..];
    ConcatPlus(events[..i] + events[i..j], events[j..]);
    ConcatPlus(events[..i], events[i..j]);
    LenPlus(Concat(events[..i] + events[i..j]), Concat(events[j..]));
    LenPlus(Concat(events[..i]), Concat(events[i..j]));
  }

  /** How many events the first `k` groups take. */
  function Taken(groups: seq<seq<Text>>, k: nat): nat
    requires k <= |groups|
  {
    |Flat(groups[..k])|
  }

  lemma TakenStep(budget: Budget, events: seq<Text>, groups: seq<seq<Text>>, k: nat)
    requires IsSplit(budget, events, groups) && k < |groups|
    ensures Taken(groups, k) + |groups[k]| == Taken(groups, k + 1) <= |events|
    ensures groups[k] == events[Taken(groups, k)..Taken(groups, k + 1)]
    ensures groups[k] != []
  {
    assert groups[..k + 1][..k] == groups[..k];
    FlatIsPrefix(groups, k);
    FlatIsPrefix(groups, k + 1);
    assert FitsRoom(budget, groups, k);
    var upTo := Flat(groups[..k + 1]);
    assert upTo == Flat(groups[..k]) + groups[k];
    assert upTo == events[..|upTo|];
  }

  lemma {:induction false} FlatIsPrefix(groups: seq<seq<Text>>, k: nat)
    requires k <= |groups|
    ensures Flat(groups[..k]) <= Flat(groups)
    decreases |groups| - k
  {
    if k == |groups| {
      assert groups[..k] == groups;
    } else {
      FlatIsPrefix(groups, k + 1);
      assert groups[..k + 1][..k] == groups[..k];
    }
  }

  /** A stretch that begins no later than a greedy group and goes on past it is
      over that group's room. */
  lemma PastIsOver(budget: Budget, events: seq<Text>, greedy: seq<seq<Text>>, k: nat, start: nat, end: nat)
    requires IsSplit(budget, events, greedy) && IsGreedy(budget, greedy) && k < |greedy|
    requires start <= Taken(greedy, k) && Taken(greedy, k + 1) < end <= |events|
    ensures end - start > 1 && Size(events[start..end]) > Room(budget, k)
  {
    TakenStep(budget, events, greedy, k);
    assert greedy[..|greedy|] == greedy;
    TakenStep(budget, events, greedy, k + 1);
    var from, to := Taken(greedy, k), Taken(greedy, k + 1);
    var next := events[to];
    assert greedy[k + 1][0] == next;
    assert IsFull(budget, greedy, k);
    var group := events[start..end];
    assert to + 1 <= end && events[from..to] + [next] == events[from..to + 1];
    assert group[from - start..to + 1 - start] == events[from..to + 1];
    SizePush(events[from..to], next);
    SizeWithin(group, from - start, to + 1 - start);
  }

  /** After as many groups, a greedy split has taken at least as many events. */
  lemma {:induction false} GreedyIsAhead(
      budget: Budget, events: seq<Text>, greedy: seq<seq<Text>>, other: seq<seq<Text>>, k: nat)
    requires IsSplit(budget, events, greedy) && IsGreedy(budget, greedy) && IsSplit(budget, events, other)
    requires k <= |greedy| && k <= |other|
    ensures Taken(other, k) <= Taken(greedy, k)
  {
    if k > 0 {
      GreedyIsAhead(budget, events, greedy, other, k - 1);
      TakenStep(budget, events, greedy, k - 1);
      TakenStep(budget, events, other, k - 1);
      assert FitsRoom(budget, other, k - 1);
      if Taken(other, k) > Taken(greedy, k) {
        PastIsOver(budget, events, greedy, k - 1, Taken(other, k - 1), Taken(other, k));
      }
    }
  }

  /** No split whose groups fit has fewer groups. */
  lemma GreedyIsShortest(budget: Budget, events: seq<Text>, greedy: seq<seq<Text>>, other: seq<seq<Text>>)
    requires IsSplit(budget, events, greedy) && IsGreedy(budget, greedy) && IsSplit(budget, events, other)
    ensures |greedy| <= |other|
  {
    if |other| < |greedy| {
      var k := |other|;
      GreedyIsAhead(budget, events, greedy, other, k);
      assert other[..k] == other;
      TakenStep(budget, events, greedy, k);
    }
  }

  /** The split is the only greedy one. */
  lemma GreedyUnique(budget: Budget, events: seq<Text>, a: seq<seq<Text>>, b: seq<seq<Text>>)
    requires IsSplit(budget, events, a) && IsGreedy(budget, a)
    requires IsSplit(budget, events, b) && IsGreedy(budget, b)
    ensures a == b
  {
    GreedyIsShortest(budget, events, a, b);
    GreedyIsShortest(budget, events, b, a);
    forall k | 0 <= k < |a|
      ensures a[k] == b[k]
    {
      GreedyIsAhead(budget, events, a, b, k);
      GreedyIsAhead(budget, events, b, a, k);
      GreedyIsAhead(budget, events, a, b, k + 1);
      GreedyIsAhead(budget, events, b, a, k + 1);
      TakenStep(budget, events, a, k);
      TakenStep(budget, events, b, k);
    }
  }

  // ---- Prompts. ----

  function Fixed(w: Wording, isChunk: bool): Text {
    w.instructions + (if isChunk then w.part else []) + w.data
  }

  /** Whether the transcript goes in. */
  predicate TakesSpan(w: Wording, events: seq<Text>, isChunk: bool, span: Option<Text>) {
    span.Some? && Len(Fixed(w, isChunk) + Concat(events)) + Len(w.header) + Len(span.value) <= PROMPT_MAX_BYTES
  }

  function Untrimmed(w: Wording, events: seq<Text>, isChunk: bool, span: Option<Text>): Text {
    var body := Fixed(w, isChunk) + Concat(events);
    if TakesSpan(w, events, isChunk, span) then body + w.header + span.value else body
  }

  method BuildPrompt(w: Wording, events: seq<Text>, isChunk: bool, span: Option<Text>) returns (prompt: Text)
    ensures prompt == Truncate(Untrimmed(w, events, isChunk, span), PROMPT_MAX_BYTES)
  {
    prompt := w.instructions;
    if isChunk {
      prompt := prompt + w.part;
    } else {
      assert w.instructions + [] == w.instructions;
    }
    prompt := prompt + w.data;
    ghost var fixed := prompt;
    for k := 0 to |events|
      invariant prompt == fixed + Concat(events[..k])
    {
      assert events[..k + 1][..k] == events[..k];
      Associate(fixed, Concat(events[..k]), events[k]);
      prompt := prompt + events[k];
    }
    assert events[..|events|] == events;
    if span.Some? {
      if Len(prompt) + Len(w.header) + Len(span.value) <= PROMPT_MAX_BYTES {
        prompt := prompt + w.header;
        prompt := prompt + span.value;
      }
    }
    prompt := Truncate(prompt, PROMPT_MAX_BYTES);
  }

  function Overhead(w: Wording): nat {
    Len(Fixed(w, true))
  }

  function Reserve(w: Wording, span: Option<Text>): nat {
    if span.Some? then Len(w.header) + Len(span.value) else 0
  }

  /** The budgets the program sets out with. */
  function BudgetFor(w: Wording, span: Option<Text>): Budget {
    var full := SaturatingSub(PROMPT_MAX_BYTES, Overhead(w));
    Budget(SaturatingSub(full, Reserve(w, span)), full)
  }

  method ChunkSession(w: Wording, events: seq<Text>, span: Option<Text>) returns (prompts: seq<Text>)
    ensures exists groups ::
              && IsSplit(BudgetFor(w, span), events, groups) && IsGreedy(BudgetFor(w, span), groups)
              && prompts == PromptsOf(w, groups, span)
  {
    var chunks := Chunk(BudgetFor(w, span), events);
    prompts := [];
    for k := 0 to |chunks|
      invariant prompts == PromptsOf(w, chunks, span)[..k]
    {
      var prompt := BuildPrompt(w, chunks[k], |chunks| > 1, if k == 0 then span else None);
      prompts := prompts + [prompt];
    }
  }

  function PromptOf(w: Wording, groups: seq<seq<Text>>, span: Option<Text>, k: nat): Text
    requires k < |groups|
  {
    Truncate(Untrimmed(w, groups[k], |groups| > 1, if k == 0 then span else None), PROMPT_MAX_BYTES)
  }

  function PromptsOf(w: Wording, groups: seq<seq<Text>>, span: Option<Text>): seq<Text> {
    seq(|groups|, k requires 0 <= k < |groups| => PromptOf(w, groups, span, k))
  }

  lemma LenFixed(w: Wording, isChunk: bool)
    ensures Len(Fixed(w, isChunk)) + (if isChunk then 0 else Len(w.part)) == Overhead(w)
  {
    LenPlus(w.instructions + w.part, w.data);
    LenPlus(w.instructions, w.part);
    LenPlus(w.instructions + [], w.data);
    LenPlus(w.instructions, []);
  }

  /** What a prompt says, from its first byte: the instructions, the line for a
      part when there are several, the line before the data and the group's
      events; the first prompt then the transcript under its header, if that is
      within 24 KiB with all before it.  What is over 24 KiB is cut. */
  lemma PromptSays(w: Wording, groups: seq<seq<Text>>, span: Option<Text>, k: nat)
    requires k < |groups|
    ensures var part := if |groups| > 1 then w.part else [];
            var body := w.instructions + part + w.data + Concat(groups[k]);
            var whole :=
              if k == 0 && span.Some? && Len(body) + Len(w.header) + Len(span.value) <= 24 * 1024
              then body + w.header + span.value else body;
            PromptsOf(w, groups, span)[k] == if Len(whole) <= 24 * 1024 then whole else Truncate(whole, 24 * 1024)
  {
  }

  /** Every prompt is within the ceiling, whatever the events. */
  lemma PromptsFit(w: Wording, groups: seq<seq<Text>>, span: Option<Text>)
    ensures forall k :: 0 <= k < |groups| ==> Len(PromptsOf(w, groups, span)[k]) <= 24 * 1024
  {
    forall k | 0 <= k < |groups|
      ensures Len(PromptsOf(w, groups, span)[k]) <= PROMPT_MAX_BYTES
    {
      TruncateFits(Untrimmed(w, groups[k], |groups| > 1, if k == 0 then span else None), PROMPT_MAX_BYTES);
    }
  }

  /** The prompt of a group holds all its events, untrimmed. */
  predicate Whole(w: Wording, groups: seq<seq<Text>>, span: Option<Text>, k: nat)
    requires k < |groups|
  {
    PromptOf(w, groups, span, k) == Untrimmed(w, groups[k], |groups| > 1, if k == 0 then span else None)
  }

  lemma WholeIff(w: Wording, groups: seq<seq<Text>>, span: Option<Text>, k: nat)
    requires k < |groups|
    ensures Whole(w, groups, span, k) <==>
            Len(Fixed(w, |groups| > 1)) + Size(groups[k]) <= 24 * 1024
  {
    var span', isChunk := if k == 0 then span else None, |groups| > 1;
    var body := Fixed(w, isChunk) + Concat(groups[k]);
    TruncateFits(Untrimmed(w, groups[k], isChunk, span'), PROMPT_MAX_BYTES);
    LenPlus(Fixed(w, isChunk), Concat(groups[k]));
    if TakesSpan(w, groups[k], isChunk, span') {
      LenPlus(body + w.header, span'.value);
      LenPlus(body, w.header);
    }
  }

  /** A session cut into several prompts loses text exactly where an event alone
      is over the full budget. */
  lemma TrimmedIffTooBig(w: Wording, events: seq<Text>, groups: seq<seq<Text>>, span: Option<Text>, k: nat)
    requires Overhead(w) <= 24 * 1024
    requires IsSplit(BudgetFor(w, span), events, groups) && |groups| > 1 && k < |groups|
    ensures !Whole(w, groups, span, k) <==> |groups[k]| == 1 && Len(groups[k][0]) > BudgetFor(w, span).full
  {
    WholeIff(w, groups, span, k);
    assert FitsRoom(BudgetFor(w, span), groups, k);
    if |groups[k]| == 1 {
      assert groups[k] == [] + [groups[k][0]];
      SizePush([], groups[k][0]);
    }
  }

  /** When every event fits the full budget no prompt is trimmed. */
  lemma NothingTrimmed(w: Wording, events: seq<Text>, groups: seq<seq<Text>>, span: Option<Text>)
    requires Overhead(w) <= 24 * 1024
    requires IsSplit(BudgetFor(w, span), events, groups)
    requires forall i :: 0 <= i < |events| ==> Len(events[i]) <= BudgetFor(w, span).full
    ensures forall k :: 0 <= k < |groups| ==> Whole(w, groups, span, k)
  {
    forall k | 0 <= k < |groups|
      ensures Whole(w, groups, span, k)
    {
      WholeIff(w, groups, span, k);
      LenFixed(w, |groups| > 1);
      TakenStep(BudgetFor(w, span), events, groups, k);
      assert FitsRoom(BudgetFor(w, span), groups, k);
      if |groups[k]| == 1 {
        assert groups[k] == [] + [groups[k][0]];
        SizePush([], groups[k][0]);
      }
    }
  }

  /** The transcript goes into the first prompt whenever the first group is
      within its reduced budget.  Of several groups it goes in exactly when it
      could go in at all and the first is not a lone event over that budget. */
  lemma SpanKeptIff(w: Wording, events: seq<Text>, groups: seq<seq<Text>>, span: Text)
    requires IsSplit(BudgetFor(w, Some(span)), events, groups) && groups != []
    ensures Overhead(w) + Reserve(w, Some(span)) <= 24 * 1024
            && Size(groups[0]) <= BudgetFor(w, Some(span)).first ==>
              TakesSpan(w, groups[0], |groups| > 1, Some(span))
    ensures |groups| > 1 ==>
              (TakesSpan(w, groups[0], true, Some(span)) <==>
               && Overhead(w) + Reserve(w, Some(span)) <= 24 * 1024
               && !(|groups[0]| == 1 && Len(groups[0][0]) > BudgetFor(w, Some(span)).first))
  {
    LenFixed(w, |groups| > 1);
    LenPlus(Fixed(w, |groups| > 1), Concat(groups[0]));
    assert FitsRoom(BudgetFor(w, Some(span)), groups, 0);
    if |groups[0]| == 1 {
      assert groups[0] == [] + [groups[0][0]];
      SizePush([], groups[0][0]);
    }
  }

  /** A transcript kept is kept whole, at the end of the first prompt. */
  lemma SpanKeptWhole(w: Wording, groups: seq<seq<Text>>, span: Text)
    requires groups != [] && TakesSpan(w, groups[0], |groups| > 1, Some(span))
    ensures var prompt := PromptOf(w, groups, Some(span), 0);
            |prompt| >= |span| && prompt[|prompt| - |span|..] == span
  {
    WholeIff(w, groups, Some(span), 0);
    LenPlus(Fixed(w, |groups| > 1), Concat(groups[0]));
  }
}
