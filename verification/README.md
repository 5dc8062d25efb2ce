# Verified models of the consolidation engine

`brain` keeps an append-only log of what coding sessions did and an index derived
from it.  Its consolidation engine turns pending events into narratives, promotes
what recurs to knowledge pages, folds repeats, cleans up old knowledge and moves
machine-wide lessons to the machine - started by many short-lived processes at
once, fed by models whose answers cannot be trusted, and killed at any moment.
These Dafny modules model that engine and prove what it promises.

| files | what they model |
|---|---|
| `RunLock`, `RunLockSteps`, `RunLockSafety`, `RunLockWitness`, `RunLockDrainWitness` | asks, the machine-wide run lock, the drain after it: a transition system over any number of invocations |
| `SessionClaims`, `SessionClaimsSafety`, `SessionClaimsWitness` | claiming a session, the check for a run it raced, and the reopening of a settled one |
| `LogCatchUp`, `LogCatchUpSafety` | the incremental reader of the log and its watermark |
| `CorrectionClusters` | union-find with path halving over corrections |
| `SameFact`, `Fold`, `FoldSafety` | greedy cliques of one fact, and the fold that withdraws repeats |
| `Synthesis` | one synthesis round over an arbitrary answer |
| `Labels` | one batch of the cleanup's labels over an arbitrary answer |
| `Cleanup`, `CleanupSafety` | the cleanup's resumable walk |
| `MachineMove`, `MachineMoveSafety`, `MachineMoveRestore`, `MachineMoveWhole` | moving a lesson to the machine and restoring it |
| `PromptChunks`, `TextChunks`, `Utf8` | splitting events and documents by bytes |
| `JsonScanner` | finding the first JSON object in prose |
| `Similarity` | integer cosine similarity |
| `Basics` | shared vocabulary |

Protocols are transition systems with an invariant proved for every step and
lifted to every run.  Loops over fields and vectors are methods proved equal to a
specification function, and the promises are lemmas about that function.

## What the proofs brought to light

- **Two processes can hold the run lock with nobody killed.**  `RunLock::take`
  judges the holder and then removes the file as two steps; a racer that judged a
  finished holder's file may remove a later holder's
  (`RunLockDrainWitness.TwoHoldersWithoutAKill`).  Without such a removal exclusion
  holds (`RunLockSafety.MutualExclusion`); it comes back once every holder owns the
  file again (`RunLockSafety.ExclusionReturns`), and even without it no ask is run
  twice at once.
- **No ask is lost without trace**: however invocations fail, are killed or leave,
  once all have ended each ask was executed, deleted for want of work, in the hands
  of an execution that failed, or is still there as an open row for the same work
  (`RunLockSafety.NoAskLost`).
- **An ask can be left open** by seven kinds of exit, each shown by a run in which
  nothing else goes wrong: the holder's own error, an unfinished ask, the time
  limit, a kill, a holder that never drains, the limit on drain rounds, and - with
  no failure at all - a holder that finds its own ask served already and returns
  without looking (`RunLockDrainWitness.ServedReturnLosesAsk`).  Such an exit need
  not be final: past the last of them, nothing stays open exactly when nothing was
  open, or somebody was still there who will look, or somebody starts afterwards
  (`RunLockSafety.NothingLeftOpenIff`).
- **A reopened session can be redone by the very invocation that settled it**: a
  forced ask, or the daily maintenance (`src/maint.rs:785`), reopens a settled
  session by deleting its row, claim and all, so the check for a run it raced finds
  nothing (`SessionClaimsWitness.ReopenedRedoes`).  Two runs of a session for one
  event overlap only if the earlier was forgotten so, or one of these two was
  recorded after its claim was lost (`SessionClaims.RedoneOnlyIfReopened`), and a
  narrative is written twice only in the latter case or when it was recorded
  between the reopening's look and its deletion (`SessionClaims.NoNarrativeTwice`);
  a run shows each exception.
- **A rewritten log can hide lines for good.**  The watermark goes by one line's
  first bytes; a rewrite that keeps them is not noticed
  (`LogCatchUpSafety.RewriteHidesALine`; the exact condition is
  `LogCatchUpSafety.UnnoticedRewrite`).
- **The fold is not idempotent**, though its comment (`src/consolidate.rs:1563`)
  says so: the survivor takes the newest wording, which may match anew
  (`FoldSafety.OnePassIsNotAlwaysEnough`; the exact conditions are
  `FoldSafety.SecondPassIdleIff` and, without human pages,
  `FoldSafety.OnePassEnoughIff`).  Fewer passes than live pages always end it.
- **One page may be revised twice in one synthesis round**, by two entries of one
  answer (`Synthesis.OnePageRevisedTwice`; the exact condition is
  `Synthesis.RevisedTwiceIff`).  The machine's pages and the labels are guarded,
  the project's pages are not.
- **A late tombstone can lose a moved lesson from the index**: if the catch-up a
  restore begins with ran out of budget before the lesson's tombstone, the copies
  are retired and the tombstone is applied afterwards
  (`MachineMoveSafety.LateTombstoneLosesTheLesson`; the exact condition is
  `MachineMoveRestore.RestoreKeepsIff`).  A rebuild from the log always has the
  lesson (`MachineMoveSafety.NeverLostInLog`).
- **`chunk_text` does not keep every byte**, though its comment
  (`src/ingest.rs:307-309`) says so: an empty paragraph is dropped where no chunk is
  open, and a blank tail at the end.  All ink is kept, and
  `TextChunks.ComesBackIff` says exactly when a document comes back whole from its
  chunks.

Where comment and code disagree the models follow the code.

## Model

| member | source | states |
|---|---|---|
| RunLockSafety.InvStep | src/consolidate.rs:293-426 | every step of every invocation - ask, lock attempt, work, release, look, error, kill, eviction - keeps the protocol's invariant |
| RunLockSafety.NoAskLost | src/consolidate.rs:354-368 | in every run, whatever failed or was killed in it: once every invocation has ended, each ask was done by an execution begun after it was written, or deleted open (or was the same work as one deleted) because its session had no work left, or was in the hands of an execution that ended in an error or a kill, or is the same work as a row still open; and unless it is done it was undone when some invocation failed or left without looking |
| RunLockSafety.NothingLeftOpenIff | src/consolidate.rs:354-426 | of every run whose invocations all end: split past the last exit that does not look - an error, a kill, a hand-back, a last letting go, or standing aside for a killed holder's file - nothing is open at the end exactly when nothing was open at the split, or somebody firm was there, or somebody starts after it |
| RunLockSafety.NothingLeftOpen | src/consolidate.rs:369-405 | with no such exit at all nothing is open at the end and every ask was executed or had no work left |
| RunLockSafety.DropLooksIff | src/consolidate.rs:399-425 | letting go of the lock removes the file and nothing else, and the invocation goes on to read the open asks unless it is quitting, has done its own and three others, or is out of time; one that lost its row to another taker always does |
| RunLockSteps.NeverStuck | src/consolidate.rs:293-426 | every invocation under way has a next step that is no error and no kill, whatever the others do |
| RunLockSteps.OpenIff | src/store.rs:4919-5047 | after any step the open rows are those it writes or hands back, and those that were open and it neither takes, with their twins, nor deletes as stale |
| RunLockSteps.HistoryIff | src/store.rs:4958-5018 | an ask is done only by the end of an execution begun after it was written for it or its twin, needless only with a deleted twin, failed only by an error or a kill in such an execution |
| RunLockSteps.ConsumesIff | src/consolidate.rs:306-312 | a holder works on the row it takes; finding its own taken it quits, finding a drained one taken it looks again |
| RunLockSteps.LooksFor | src/store.rs:5049-5071 | who looks goes for the oldest open ask, and ends when there is none |
| RunLockSteps.GoesOnTo | src/consolidate.rs:369-405 | where every other step leaves its invocation: done with an ask free to look in the same round, after a hand-back, a borrowing or a failure only to let go |
| RunLockSteps.RunsCount | src/consolidate.rs:369-404 | whoever sets to work is counted once for it |
| RunLockSafety.BegunByTaking | src/store.rs:4943-4975 | an execution begins only under the lock, by taking its open row, and takes exactly the open rows that are the same work |
| RunLockSafety.ReopenedOnlyUnfinished | src/consolidate.rs:396-398 | a row reopens only when the invocation executing that very row hands it back |
| RunLockSafety.TakenOnceAndBounded | src/consolidate.rs:369-426 | an ask in execution is taken and executed by one invocation only, and no invocation executes more than 1 + MAX_DRAIN_ROUNDS |
| RunLockSafety.MutualExclusion | src/consolidate.rs:3803-3865 | while no eviction removes the lock file of a live holder, at most one invocation holds the lock |
| RunLockSafety.ExclusionReturns | src/consolidate.rs:3803-3865 | so it is again, whatever was evicted before, from any point of a run at which every holder owns the file until the next such eviction |
| RunLockSafety.RobbingBreaksExclusion | src/consolidate.rs:3813-3818 | the moment one does, in any reachable state, the remover can take the lock beside the holder |
| RunLockSteps.FileIs | src/consolidate.rs:3787-3865 | the lock file is made by an attempt that finds none and rewritten by a holder at work, and an eviction or a letting go removes it, whosever it is |
| RunLockSteps.StandsAsideIff | src/consolidate.rs:3823-3852 | one that was refused stands aside exactly when the holder's process runs, or, where that cannot be asked, the file was recent |
| RunLockSafety.StandsAside | src/consolidate.rs:3832-3853 | an invocation that stops waiting while an ask is undone leaves another that will look: the lost-wakeup argument |
| RunLockWitness.OwnErrorLosesAsk | src/consolidate.rs:394-394 | a given run whose only exits without looking are the holder's own error and the drop it forces leaves another's ask open and undone |
| RunLockWitness.UnfinishedLosesAsk | src/consolidate.rs:396-402 | the same where the only such exits are handing an ask back unfinished and the drop after it |
| RunLockWitness.TimeLimitLosesAsk | src/consolidate.rs:400-402 | the same where the only such exit is the drop with the time spent |
| RunLockWitness.KillLosesAsk | src/consolidate.rs:3823-3831 | the same where the only such exit is a kill |
| RunLockWitness.BorrowerLosesAsk | src/ingest.rs:255-267 | the same where the only such exit is the drop of a holder that borrowed the lock and executes no ask |
| RunLockDrainWitness.ServedReturnLosesAsk | src/consolidate.rs:306-312 | the same where the only such exit is the return of a holder whose own ask another had served |
| RunLockDrainWitness.RoundLimitLosesAsk | src/consolidate.rs:400-402 | the same where the only such exit is the drop, with time left, of a holder that executed 1 + MAX_DRAIN_ROUNDS asks |
| RunLockDrainWitness.TwoHoldersWithoutAKill | src/consolidate.rs:3803-3821 | a given run without an error, a kill or an exit that does not look, after which two invocations hold the lock |
| SessionClaims.RedoneOnlyIfReopened | src/store.rs:3214-3250 | in every interleaving, whatever happened to any claim: of two runs of one session recorded in a row for one newest event the later began no earlier than the first was recorded, or a reopening forgot the first, or one of these two was recorded after its claim was lost; and a run forgotten was settled unless the reopening raced its recording |
| SessionClaims.NoNarrativeTwice | src/consolidate.rs:1010-1055 | so after a narrative the next run of that session for its newest event began no earlier than it was recorded, unless a reopening raced this very recording or one of the two was recorded after its claim was lost |
| SessionClaims.InvStep | src/consolidate.rs:1019-1055 | every step - claiming, taking over, checking, recording, releasing, reopening - keeps that a check made after claiming still stands while its claim does or the last run was recorded without one, that no two runs in a row overlap without a reason of their own, and that rows and their history agree |
| SessionClaimsSafety.CheckStopsIff | src/consolidate.rs:1036-1047 | in every run a claimed session is left alone exactly when its last run, not forgotten since, covered the same newest event and was recorded strictly after this invocation began; else it is worked on |
| SessionClaimsSafety.ReopensIff | src/store.rs:3226-3240 | in every run a reopening goes ahead exactly when the session's last run, not forgotten since, settled it |
| SessionClaimsSafety.ForgetForgets | src/store.rs:3246-3249 | it then forgets the last run, whatever it is by then, and the claim, and no other run |
| SessionClaimsSafety.RecordedNow | src/consolidate.rs:1048-1055 | only recording adds a run: the recorder's own, at its instant |
| SessionClaimsSafety.OneAtWork | src/store.rs:5380-5400 | while no claim of a session is taken over or erased, at most one invocation has it in hand, and it is unclaimed exactly when none has |
| SessionClaimsSafety.CanLetGo | src/consolidate.rs:1044-1052 | whoever has a session in hand can release it by steps of its own |
| SessionClaimsWitness.ReopenedRedoes | src/consolidate.rs:800-807 | a given run, with every claim kept, in which one event is settled, reopened by force and narrated by an invocation begun before it was settled |
| SessionClaimsWitness.StolenClaimRedoes | src/store.rs:5380-5400 | a given run in which a claim still at work is taken over and one narrative is written twice |
| SessionClaimsWitness.LateRecordRedoes | src/store.rs:5380-5400 | the same where only the later of the two runs was recorded after its claim was lost |
| SessionClaimsWitness.ErasedClaimRedoes | src/store.rs:3246-3249 | the same where a reopening deletes the claim still at work |
| SessionClaimsWitness.WipedRunRedoes | src/store.rs:3226-3249 | the same, with every claim kept, where a narrative is recorded between a reopening's look and its deletion |
| LogCatchUp.Store.CatchUpLog | src/consolidate.rs:488-541 | the loop over the file's lines is the function CatchUp, index failures included, and touches only its own watermark |
| LogCatchUpSafety.RunKeepsTrue | src/consolidate.rs:518-541 | a run leaves a watermark at a line end, with its fingerprint, before which every parseable line is indexed |
| LogCatchUpSafety.HistoryKeeps | src/consolidate.rs:468-541 | that holds over every history of appends, half lines, budgeted runs, failing index writes and kills, and no id is written twice |
| LogCatchUpSafety.RunsReadTheLog | src/consolidate.rs:488-541 | over a log that stops changing, as many successful runs as there are lines left index exactly the ids left, each once |
| LogCatchUpSafety.BudgetIsKept | src/consolidate.rs:514-541 | a run reads on from the watermark it believes, no line that begins past its budget, and stops only for the budget or for want of a whole line |
| LogCatchUpSafety.ReadAllIsLines | src/event.rs:397-430 | reading the log from scratch finds exactly the ids of its parseable lines, the last one even without its newline |
| LogCatchUpSafety.CatchUpRefinesReadAll | src/consolidate.rs:468-541 | after any history, enough runs leave exactly the ids reading the whole log gives, but for a last line still without its newline, and write none twice |
| LogCatchUpSafety.RewriteIsReread | src/consolidate.rs:499-511 | after any history, a log replaced by a shorter file, or by one with another byte among the first 64 of the last line read, is read again in full |
| LogCatchUpSafety.UnnoticedRewrite | src/consolidate.rs:502-511 | after any history any other replacement goes unnoticed: the whole new log is indexed if and only if its earlier lines already were |
| LogCatchUpSafety.RewriteHidesALine | src/consolidate.rs:475-479 | a rewrite after which no run ever indexes a line |
| CorrectionClusters.Root | src/consolidate.rs:4910-4916 | following parents with path halving ends, at the root, and keeps every root and the forest |
| CorrectionClusters.HalvingKeepsForest | src/consolidate.rs:4910-4916 | halving a path keeps the parents acyclic |
| CorrectionClusters.HangingKeepsForest | src/consolidate.rs:4921-4923 | so does hanging one root under another |
| CorrectionClusters.RootIffConnected | src/consolidate.rs:4917-4926 | two corrections end with one root exactly when a chain of pairs over the threshold connects them |
| CorrectionClusters.ShareGroupIffConnected | src/consolidate.rs:4927-4935 | two different corrections share a returned group exactly when a chain connects them |
| CorrectionClusters.ClusteringUnique | src/consolidate.rs:4932-4934 | the result is determined by the corrections: hash order does not show |
| CorrectionClusters.ClusterCorrections | src/consolidate.rs:4897-4935 | the groups are those of the chains, of two or more, each in input order, newest first |
| SameFact.GroupSameFact | src/consolidate.rs:1527-1544 | the loops are the function Grouped |
| SameFact.BestIsClosest | src/consolidate.rs:1530-1538 | an item joins a cluster it matches in full, the one whose first member is closest, the last of them on a tie |
| SameFact.JoinsClosest | src/consolidate.rs:1527-1544 | every item of the returned clusters joined, of those it matched in full when it came, the one with the closest first member, the last on a tie; or it matched none and began its own |
| SameFact.GroupedIsGood | src/consolidate.rs:1522-1544 | the clusters partition the items into ascending cliques |
| SameFact.NoTwoMerge | src/consolidate.rs:1527-1544 | no two returned clusters can be merged into a clique |
| SameFact.AllAloneIffNoPair | src/consolidate.rs:1527-1544 | nothing is grouped exactly when no pair clears the threshold |
| Fold.Shelf.FoldDuplicates | src/consolidate.rs:1567-1663 | one fold is the function Pass, and returns exactly the fall in live pages |
| Fold.Shelf.FoldOne | src/consolidate.rs:1592-1661 | one cluster's turn: restored pages, the human's page, the newest wording, the withdrawals |
| FoldSafety.CorrectedAndGoneStay | src/consolidate.rs:1596-1625 | a human's page and a withdrawn page come out of a pass as they went in |
| FoldSafety.RestoredHoldsItsCluster | src/consolidate.rs:1606-1611 | nothing changes in a cluster that holds a restored page |
| FoldSafety.FoldOutcome | src/consolidate.rs:1592-1661 | what becomes of every page of a cluster: nothing beside a restored page; else human pages stay and all others go, or the oldest takes the newest wording and all others go |
| FoldSafety.ClusterKeepsALivePage | src/consolidate.rs:1612-1625 | every cluster keeps its survivor live |
| FoldSafety.WithdrawnHasALiveMatch | src/consolidate.rs:1547-1561 | a page is withdrawn only while another whose title matched its own stays live |
| FoldSafety.PagesJoinClosest | src/consolidate.rs:1567-1592 | every live page is in the cluster of the closest first page among those whose older live pages it all matched, or began its own because it matched none so |
| FoldSafety.UnchangedIffSettled | src/consolidate.rs:1592-1661 | a pass changes nothing exactly when every cluster is settled |
| FoldSafety.PassFalls | src/consolidate.rs:1567-1663 | a pass brings nothing back, and one that changes anything withdraws a page |
| FoldSafety.PassesSettle | src/consolidate.rs:1562-1566 | fewer passes than there are live pages reach a project no later pass changes |
| FoldSafety.SecondPassIdleIff | src/consolidate.rs:1562-1566 | for every project a second pass changes nothing exactly when the survivors of the first pass's clusters, in the wording it gives them and grouped among themselves, form only groups of one page, or beside a restored page, or all a human's |
| FoldSafety.SurvivorsAre | src/consolidate.rs:1592-1661 | those survivors, read off the clusters before the pass - every human's page, all beside a restored one, else the oldest in the newest wording - are the pages the pass leaves live, in order |
| FoldSafety.OnePassEnoughIff | src/consolidate.rs:1562-1566 | without human pages that is exactly when no two survivors match in the newest wordings of their clusters |
| FoldSafety.OnePassIsNotAlwaysEnough | src/consolidate.rs:1631-1639 | three pages that need a second pass |
| Synthesis.Round.AddEntries | src/consolidate.rs:4322-4519 | the loop over an answer's entries is the function After |
| Synthesis.AtMostFive | src/consolidate.rs:4322-4325 | a round adds at most five Knowledge events, the machine's included |
| Synthesis.WrittenIs | src/consolidate.rs:4322-4519 | it adds as many as the answer has addable entries - readable, backed, carried by no page they would go to - or five if it has more |
| Synthesis.EveryAdditionIsBacked | src/consolidate.rs:4365-4425 | each is an entry's, in its wording, backed by two or more distinct events it names and was shown, for a rule all it so cites in one correction cluster; a project page links exactly those events, in the order named, and on the machine none |
| Synthesis.BackedIff | src/consolidate.rs:4367-4425 | the gates of the loop pass a claim exactly when that backing is there |
| Synthesis.EverythingIsExplained | src/consolidate.rs:4322-4519 | everything a round writes is some entry's, in its wording and past its gates, and a label comes right after the revision it is for |
| Synthesis.WorthyIsAdded | src/consolidate.rs:4322-4519 | an addable entry behind fewer than five others is added, in its own wording and with all its links |
| Synthesis.RevisionsAndLabels | src/consolidate.rs:4380-4409 | a page is revised once per entry that lands on it and labelled exactly once if any does; a machine page is revised at most once |
| Synthesis.MachineRevisedOnce | src/consolidate.rs:4426-4457 | a machine page is revised once if any reached, backed entry lands on it, and else not |
| Synthesis.RevisedTwiceIff | src/consolidate.rs:4380-4390 | a page is revised twice in a round exactly when two readable entries carry its claim with fewer than five addable ones before them and no verdict corrected it |
| Synthesis.OnePageRevisedTwice | src/consolidate.rs:4380-4390 | an answer that does it |
| Synthesis.RevisedIsLeftAlone | src/consolidate.rs:4381-4385 | a page a verdict corrected is neither revised nor labelled again that round |
| Synthesis.CorrectedExactlyOnce | src/consolidate.rs:4709-4768 | over verdicts and entries together such a page is revised exactly once |
| Synthesis.ApplyRecheck | src/consolidate.rs:4709-4768 | the loop over verdicts, and which ids it reports as revised |
| Synthesis.FirstVerdictCounts | src/consolidate.rs:4723-4767 | the first verdict on a lesson that was shown and no person corrected has exactly its effect: a mark, a withdrawal, a new wording and a mark, or nothing; later ones none |
| Synthesis.NoVerdictCounts | src/consolidate.rs:4723-4733 | every other lesson is left alone |
| Labels.Cursor.Apply | src/clean.rs:301-390 | what one answer appends to the log, in order, and every tally |
| Labels.WrittenForEntry | src/clean.rs:309-390 | the first label for an entry that names a class decides it: one note with the class, a status's end fourteen days on, and the entry's own files it names; then a tombstone exactly if the class speaks against the page, no person corrected it and the answer does not condemn more than eight in ten of the batch |
| Labels.WrittenInOrder | src/clean.rs:309-390 | the lines about different entries stand in the log in the order of the labels that decided them |
| Labels.NothingElseWritten | src/clean.rs:311-318 | nothing else is written: no id outside the batch, none without a deciding label |
| Labels.LabelledIff | src/clean.rs:311-318 | an id is labelled exactly when the batch has it and some label for it names a class |
| Labels.AtMostFourFifths | src/clean.rs:369-376 | at most four fifths of a batch are retired, on any answer: all it condemns, or, if that is more, none |
| Labels.CitesOwnFiles | src/clean.rs:349-355 | a note cites exactly the entry's own files the label named, each once |
| Cleanup.Store.RunPass | src/clean.rs:694-804 | the nested loops, breaks, saves and dying points are the state machine Step |
| Cleanup.Fit | src/clean.rs:203-219 | a batch is the longest prefix with room, and never empty |
| CleanupSafety.PositionNeverMovesBack | src/clean.rs:694-804 | over any history the saved project, stage and id never move back, and the failures at one place stay under three |
| CleanupSafety.NothingPassedUnseen | src/clean.rs:744-792 | the cursor passes no unlabelled entry but those it could not read, and those a ladder run was sent whose answer was usable or the third that was not; and it leaves a project only when none is beyond it |
| CleanupSafety.PassedIff | src/clean.rs:744-792 | exactly which entries one turn passes, by their place beyond the cursor |
| CleanupSafety.RunsIff | src/clean.rs:732-762 | one turn makes one ladder run exactly when there are calls and time, entries to send and a model to answer |
| CleanupSafety.CountsAndSaves | src/clean.rs:763-793 | what a turn counts, holds against a batch and saves |
| CleanupSafety.StopsIff | src/clean.rs:733-790 | when an invocation stops at a project |
| CleanupSafety.ArrivesIff | src/clean.rs:716-731 | a project done before is passed over, a new one is gone through from its first entry, the saved one from its place |
| CleanupSafety.FlagIff | src/clean.rs:796-804 | a turn sets the flag exactly when thirty calls are spent or the projects are at an end, and clears the saved place only then |
| CleanupSafety.FlagMeansDone | src/clean.rs:694-804 | when an invocation sets the flag thirty calls were spent, or every project was left by a turn that found nothing unlabelled beyond the cursor, or was done before |
| CleanupSafety.ThreeTriesAtOnePlace | src/clean.rs:764-792 | over any history at most three answers are heard at one place |
| CleanupSafety.FivePerInvocation | src/clean.rs:732-742 | one invocation makes at most five ladder runs |
| CleanupSafety.ThirtyInAll | src/clean.rs:732-763 | a cleanup that loses no run between the run and its save makes at most thirty |
| CleanupSafety.ThirtyByTheLedger | src/clean.rs:705-710 | so does one that dies anywhere, if every run leaves a ledger row |
| MachineMoveSafety.NeverLostInLog | src/clean.rs:567-670 | in every history, wherever the process dies, a rebuild from the log finds the lesson live or a live copy |
| MachineMoveSafety.NeverLostInIndex | src/clean.rs:868-967 | so does the index, in every history in which a copy is retired only with no tombstone of the lesson unindexed or with a live copy a person corrected staying |
| MachineMoveSafety.BeginsIff | src/clean.rs:567-656 | a move begins only for a live lesson never restored, a restore only for a tombstoned lesson the index holds withdrawn, and it retires only such copies |
| MachineMoveRestore.RestoreKeepsIff | src/clean.rs:868-967 | from any state the above reaches in which a restore may begin, the whole restore and the whole catch-up after it keep the lesson in the index exactly when the last of its unindexed tombstones and restore notes is no tombstone, or a copy survives: a live one a person corrected, or one yet to be indexed |
| MachineMoveRestore.RestoreWithdrawsIff | src/clean.rs:868-967 | a whole restore withdraws in the log exactly the copies the machine's log has, but those the index knows a person corrected or holds withdrawn already |
| MachineMoveRestore.RestoreThenCatchUp | src/consolidate.rs:468-541 | that restore and that catch-up are runs of the protocol's own steps |
| MachineMoveSafety.LateTombstoneLosesTheLesson | src/main.rs:669-672 | a history in which a late tombstone does |
| MachineMoveWhole.Brain.Move | src/clean.rs:617-656 | without deaths a move leaves one live copy and no lesson in the project |
| MachineMoveWhole.Brain.Restore | src/clean.rs:868-967 | without deaths a restore brings the lesson back and leaves only copies a person corrected |
| PromptChunks.Chunk | src/consolidate.rs:1736-1763 | the groups concatenate to the events, each fits its room or is one event, and none had room for the next |
| PromptChunks.GroupsFill | src/consolidate.rs:1736-1763 | the first group is held to the reduced budget and every other to the full one, and none had room for the event after it |
| PromptChunks.GreedyUnique | src/consolidate.rs:1736-1763 | that describes the groups completely |
| PromptChunks.GreedyIsShortest | src/consolidate.rs:1736-1763 | no way to split into fitting groups has fewer, the smaller first room included |
| PromptChunks.BuildPrompt | src/consolidate.rs:1890-1928 | the prompt's text, with the transcript exactly when it fits |
| PromptChunks.ChunkSession | src/consolidate.rs:1331-1345 | the prompts of a session are those of its greedy groups, the transcript with the first |
| PromptChunks.PromptSays | src/consolidate.rs:1890-1928 | what each prompt says from its first byte, the transcript with the first exactly if all is within 24 KiB |
| PromptChunks.PromptsFit | src/consolidate.rs:1923-1927 | every prompt is within the ceiling, whatever the events |
| PromptChunks.NothingTrimmed | src/consolidate.rs:1736-1763 | when every event fits the full budget no prompt is cut |
| PromptChunks.TrimmedIffTooBig | src/consolidate.rs:1736-1763 | of several prompts one is cut exactly when its group is one event over the full budget |
| PromptChunks.SpanKeptIff | src/consolidate.rs:1914-1921 | the transcript is kept whenever the first group is within the reduced budget, and of several groups exactly when it can fit and the first is no lone oversized event |
| PromptChunks.SpanKeptWhole | src/consolidate.rs:1914-1921 | a transcript kept ends the first prompt, whole |
| Utf8.BoundaryIff | src/ingest.rs:320-323 | the test of one byte finds exactly the ends of characters |
| Utf8.EncodeDecodes | src/ingest.rs:320-323 | the bytes of a character stand for it |
| Utf8.TruncateFits | src/sanitize.rs:353-373 | truncation stays within its bound and leaves what fits alone |
| Utf8.TruncateIs | src/sanitize.rs:353-373 | a text too long keeps the most whole characters that leave room for the ellipsis |
| TextChunks.ChunkDocument | src/ingest.rs:310-338 | the nested loops are the function ChunkText, byte positions included |
| TextChunks.SplitIs | src/ingest.rs:313-313 | the paragraphs are the document cut at every blank line from the left, and joining them gives it back |
| TextChunks.ChunksFit | src/ingest.rs:310-338 | every chunk holds something, fits, and is cut between characters |
| TextChunks.ChunksKeepInk | src/ingest.rs:310-338 | the chunks hold all characters but white space, in order |
| TextChunks.ChunksAreTight | src/ingest.rs:326-333 | two neighbouring chunks together always fill one |
| TextChunks.ComesBackIff | src/ingest.rs:310-338 | every document is given back by putting its chunks together - nothing between the pieces of one paragraph, a blank line between any others - exactly when it is empty, or no empty paragraph comes where no chunk is open and the last chunk is not blank |
| TextChunks.JoinGivesBack | src/ingest.rs:310-338 | so it is when no paragraph is empty and the last is not blank |
| TextChunks.ShortComesBackIff | src/ingest.rs:334-337 | a document that fits one chunk comes back exactly when it is empty, or has ink and no leading blank line |
| JsonScanner.ExtractJsonObject | src/consolidate.rs:2028-2059 | the loop returns the shortest balanced prefix from the first opening brace, and the depth never underflows |
| JsonScanner.ExtractIff | src/consolidate.rs:2027-2059 | it answers exactly when the text goes on from there with a braced item of the brace-and-string grammar, and with that item |
| JsonScanner.ExtractInvertsPrinting | src/consolidate.rs:2014-2025 | for any JSON object printed with any whitespace, after any text without an opening brace and before any text, it returns the object |
| Similarity.Accumulate | src/embed.rs:381-394 | the loop's three 32-bit sums, and when the answer is 0 outright |
| Similarity.NoWrap | src/embed.rs:385-391 | up to 131,071 bytes the 32-bit sums are the true ones |
| Similarity.OneLongerWraps | src/embed.rs:385-391 | one byte more and they need not be |
| Similarity.CauchySchwarz | src/embed.rs:374-380 | the squared dot product is at most the product of the norms |
| Similarity.ScoreIs | src/embed.rs:381-398 | two vectors of one length, neither zero, score their dot product over the product of their lengths; any others 0 |
| Similarity.ScoreInUnit | src/embed.rs:374-398 | the score over the reals is between -1 and 1 |
| Similarity.ScoreUnique | src/embed.rs:395-398 | the sums determine the score |
| Similarity.ScoreSymmetric | src/embed.rs:381-398 | either order of the vectors gives the same scores |
| Similarity.SelfScore | src/embed.rs:381-398 | a vector scores 1 with itself unless it is all zero, and then 0 |
| Similarity.ZeroScore | src/embed.rs:382-394 | vectors of different length, and a zero vector with any, score 0 |

## Left out

- The run lock and the claims are transition systems, not methods: `serve`'s local variables `held`, `current`, `deadline`, `drained` are the program counter of an invocation.
- RunLockSafety.NoAskLost: which sessions have no pending events, and so which of their open asks a holder deletes, is any answer at all; those are counted apart from the executed ones, with every ask that is the same work as one of them.
- RunLockSafety.MutualExclusion: process ids are taken not to be reused, and a lock file's age is any answer at all.
- The idle sweep's choice of sessions, the compactor's yield note, healing of the wiki and purging of old rows.
- SessionClaims.NoNarrativeTwice: claims are by session over a logical clock, so a takeover (`CLAIM_STALE_SECS`, 300 seconds) may come at any time; the waiting, retry and parking rules before the claim, and the pending events themselves, are not modelled.
- LogCatchUp.Store.CatchUpLog: one file at a time; the byte budget shared by all files, the watermark's text form and the hexadecimal form of the fingerprint are not modelled.
- LogCatchUpSafety.ReadAllIsLines: `read_all` also sorts what it read, revisions last; the comparison is over the ids, not their order.
- CorrectionClusters.ClusterCorrections: similarity is any relation on pairs; texts and embeddings are not modelled.
- Fold.Shelf.FoldDuplicates: the events the fold appends are modelled by their effect on the pages; `correct` notes that lower a page's rank are not.
- Synthesis.Round.AddEntries: scrubbing, the machine filter and which page carries a claim are given; a supersession is counted as written, though the index ignores its text on a page a person corrected.
- Synthesis.EveryAdditionIsBacked: a machine event keeps no link to its sources, so on the machine the backing is a fact about the round, not the event.
- The page files of knowledge in the vault, its cites, commands and expiry dates.
- Labels.Cursor.Apply: trimming, case and command normalisation are done before the model starts, and a timestamp near the end of the calendar's range is not treated apart.
- Cleanup.Store.RunPass: stage `a` only as something that may fail (its grouping is `SameFact`), a cursor written by an older version, and cursors that no longer parse.
- The daily labelling of what the cleanup left (`label_remainder`): the same walk with other bounds.
- MachineMoveSafety.NeverLostInIndex: one lesson with any number of copies, and one order for the lines of both logs; a person's forget, the fold of the machine's own lessons and two ids minted in one millisecond are not modelled.
- MachineMoveWhole.Brain.Move: the cursor over candidates, lessons a person corrected and the machine filter only decide which lessons take a turn.
- PromptChunks.BuildPrompt: how one event is rendered; the debug assertion that would stop a debug build where the release build truncates.
- TextChunks.ComesBackIff: which chunks go on a paragraph is kept beside them by the model; the program does not keep it.
- JsonScanner.ExtractInvertsPrinting: strings and numbers are any text the grammar allows and more; parsing the object is not modelled.
- Similarity.ScoreInUnit: the score is over the reals; rounding of the 32-bit floats, quantizing and pooling are not modelled.
- SQL, ranking, embeddings, git, process inspection, rendering of wiki pages and hubs, and all I/O.
