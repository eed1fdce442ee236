# Verified model of the gateway's state machines

This project models the parts of the knowledge gateway whose correctness is a statement about many
steps, and proves what they promise for every input, every schedule or every run:

* the retention executor, `gateway_run_retention`, and the trigger that guards provenance links
  (`Retention*.dfy`), at migration 018;
* the two text chunkers (`FixedChunker.dfy`, `SemanticChunker.dfy`, `SemanticSections.dfy`);
* ownership and archiving of spaces under the row-level policies, with any number of concurrent
  transactions (`SpaceOwnership.dfy`, `SpaceStatements.dfy`, `SpaceArchiving.dfy`);
* three client protocols: session refresh coordinated across browser tabs (`RefreshCoordination.dfy`),
  latest-request-wins pagination (`PagePagination.dfy`), and the generation-stamped cache of spaces
  (`SpaceCache.dfy`);
* the body-limit and quota middlewares, one inside the other (`RequestReplay.dfy`), the quota that
  concurrent requests share (`QuotaBalance.dfy`), and the codec of personal API keys (`ApiKeys.dfy`).

`dafny verify dfyconfig.toml` checks everything.

## How it is built

Code that changes things step by step is a class whose fields are the source's variables and whose
methods are its statements (`RetentionDatabase`, `SpaceDatabase`, `Browser`, `PagePaginationHook`,
`AccessibleSpaces`, `Chunker`, `QuotaService`, the receivers of `RequestReplay`). Each method is proved equal to a
function on snapshots, and the promises are proved about those functions: for retention the function is
not the procedure statement by statement but a description of the whole call on the tables it started
from (`RetentionEffects`), so the method's contract is itself a refinement result; for the protocols it is
a step function, and the theorems are about `After(state, run)` for an arbitrary list of events.

Three modules say again, in terms that use none of those functions' own definitions, what they must come
to: which rows a retention call takes first (`RetentionOrder`, on rows, columns and foreign keys alone), where
a text is split (`SemanticSections`, on strings), and when a statement is carried out and what it writes
(`SpaceStatements`, on what a transaction sees). The theorems there connect the two.

Some results that a reader would not expect from the code alone:

* A retention call purges nothing exactly when nothing eligible is left (`IdleExactlyWhenDrained`), and
  one call never purges more than 11 m + 6 rows for batch size m.
* Whatever document revision a link still reaches after a call has lost nothing in it: neither itself nor
  any of its chunks, their units, its jobs and their events (`CitedEvidenceSurvives`). This rests on the
  guard in the victim's selection; the foreign keys by themselves protect only the row that is cited.
* A semantic chunk may be longer than the window: the bound is `size + overlap`, and it is attained for
  every window of four or more characters and every nonzero overlap (`OverlapCanExceedTheWindow`).
* A semantic chunk may be empty, exactly when some round flushes a buffer that is all white space
  (`EmptyChunkExactlyWhen`); two line feeds and `abcd` under a window of three are such a text
  (`ATextWithAnEmptyChunk`).
* In the fixed chunker every stretch of `overlap + 1` characters is whole in some chunk, and `overlap + 2`
  is too many for every text longer than a window.
* A refresh can start within 30 seconds of the last successful one, but only if that one's record was lost:
  storage refused it or was cleared (`RefreshesAreSpacedOut`, `ALostRecordAllowsAnEarlyRefresh`).
* Archiving a space is final under the policies exactly when no update that would change its row is waiting
  at that moment (`ArchivingIsFinal`, `AWaitingUpdateStillWrites`): an update that passed its policy before
  it had to wait is not asked again.
* In the pagination hook the counter and the abort signal always agree; either alone would do.
* A key printed under a negative version is not read back, because of the sign (`PrintThenParse` has the
  exact condition). A key also verifies with leading zeros in its version, and with nothing else
  (`OnlyTheIssuedKeyVerifies`).

## Model

| member | source | states |
|---|---|---|
| RetentionSchema.DeleteKeepsConsistency | alembic/versions/008_durable_ingestion.py:158-162 | deleting rows that only each other refer to leaves every foreign key of every remaining row satisfied |
| RetentionSelection.FirstBatchSize | alembic/versions/018_retention_executor.py:109-116 | an ordered batch holds all candidates when they fit and is full otherwise |
| RetentionSelection.FirstBatchIsOldest | alembic/versions/018_retention_executor.py:308-315 | no candidate left out of a batch comes before one taken, in age and then id |
| RetentionSelection.First | alembic/versions/018_retention_executor.py:82-88 | an ordered LIMIT 1 finds a row exactly when there is a candidate, and one that no candidate precedes |
| RetentionSafety.ReferrersOfKnowledgeVictim | alembic/versions/018_retention_executor.py:134-145 | only its own units and links refer to a knowledge victim: no current pointer does |
| RetentionSafety.ReferrersOfDocumentVictim | alembic/versions/018_retention_executor.py:269-284 | only its own chunks, jobs and direct links refer to a document victim: no current pointer does |
| RetentionSafety.RetentionConserves | alembic/versions/018_retention_executor.py:107-412 | from any state with valid foreign keys, a call leaves them valid and the rows gone are exactly the rows reported |
| RetentionLive.RetentionKeepsLive | alembic/versions/018_retention_executor.py:82-106 | every item or document not archived past the cutoff, its current revision and that revision's units, links, chunks, jobs and events come through a call unchanged; surviving rows keep their columns |
| RetentionEligibility.GoneRowsWereEligible | alembic/versions/018_retention_executor.py:182-201 | every row a call purges was eligible, by its own age or its holder's, when the call started; if it hangs from a document revision, no link cited that revision when the document half began |
| RetentionDraining.RetentionBound | alembic/versions/018_retention_executor.py:107-412 | a call with batch size m purges at most 11 m + 6 rows, whatever the tables hold |
| RetentionDraining.RetentionQueueSound | alembic/versions/018_retention_executor.py:60-80 | a call keeps every queued document archived and free of citations |
| RetentionDraining.IdleExactlyWhenDrained | alembic/versions/018_retention_executor.py:48-412 | a call purges nothing if and only if no eligible row is left, and then changes no row |
| RetentionDraining.CallShrinks | alembic/versions/018_retention_executor.py:107-412 | while something eligible is left, each call strictly shrinks the row count and keeps the invariants |
| RetentionDraining.NRowsDrainInNCalls | alembic/versions/018_retention_executor.py:48-423 | with fixed cutoffs and no other writer, N rows are drained after N calls and the next call purges nothing |
| RetentionOrder.QueueRootsOrder | alembic/versions/018_retention_executor.py:48-80 | the two INSERTs queue the longest archived unqueued item, and the longest archived unqueued document none of whose revisions a link reaches, each with its own archived_at |
| RetentionOrder.KnowledgeOrder | alembic/versions/018_retention_executor.py:82-166 | the item worked on is the first queued one; the victim is the first of its revisions by (created_at, id), whatever their age, and only if it has none the first superseded revision of any item; the first units and links of the victim by id go, the victim exactly when nothing refers to it any more, and then the item |
| RetentionOrder.DocumentOrder | alembic/versions/018_retention_executor.py:168-305 | the same for documents, among revisions that no link reaches; first events and units, then the jobs and chunks that nothing refers to any more; the storage key is the victim's, exactly when its row goes |
| RetentionOrder.OperationalOrder | alembic/versions/018_retention_executor.py:307-412 | in each operational table the rows that go are the first by its own column and then id among those that are over, and one ended family and one ended key lose their first children and go with the last |
| RetentionOrder.EveryCallPurgesTheFirst | alembic/versions/018_retention_executor.py:48-412 | every call, from any tables with valid foreign keys, queues two roots and takes the three parts in that order, and changes nothing else |
| RetentionRuns.WriteKeepsQueueSound | alembic/versions/018_retention_executor.py:439-459 | no writer that respects the trigger can cite a queued document |
| RetentionRuns.RefusedExactlyWhenArchived | alembic/versions/018_retention_executor.py:439-459 | the trigger refuses exactly the links that would reach a revision of an archived document, directly or through a chunk |
| RetentionRuns.QueuedDocumentsStayUncited | alembic/versions/018_retention_executor.py:60-80 | over every interleaving of calls and outside writes, foreign keys hold and no queued document has a link to any of its revisions or chunks |
| RetentionEvidence.DocumentGoneHolder | alembic/versions/018_retention_executor.py:182-201 | what the document half purges is its root or hangs from a revision that no link reaches, directly or through a chunk |
| RetentionEvidence.CitedEvidenceSurvives | alembic/versions/018_retention_executor.py:182-201 | every row of a revision that a link reaches after the call (the revision, its chunks, their units, its jobs and their events) survives the call unchanged |
| RetentionEvidence.CitedRowSurvives | alembic/versions/018_retention_executor.py:256-259 | so does what a surviving link cites, and the revision that belongs to |
| RetentionRuns.CitedEvidenceInRuns | alembic/versions/018_retention_executor.py:191-198 | the same at every call of every interleaving with other writers |
| RetentionRuns.LiveAcrossCalls | alembic/versions/018_retention_executor.py:82-106 | across any number of calls whose archive cutoffs are not past the latest, rows live under the latest are never touched |
| RetentionRuns.LiveRowsChangeOnlyAtWrites | alembic/versions/018_retention_executor.py:82-106 | in every interleaving, a call changes and removes no row that is live under a cutoff it does not go past |
| RetentionRuns.RecoveryChecksAlwaysPass | scripts/recovery_verify.py:17-53 | at every point of every interleaving no current pointer dangles and every retrieval unit has its source in its space |
| RetentionExecutor.NothingYoungerThanTheFloors | alembic/versions/018_retention_executor.py:33-45 | an accepted call purges no root younger than 365 days, no content unless its revision is 1095 or its root 365 days old, and no record, action, session, credential, key, scope or bucket that has not been over for 30 days |
| RetentionExecutor.AcceptedExactlyWhen | alembic/versions/018_retention_executor.py:33-45 | a call is carried out if and only if the batch size is from 1 to 1000 and each cutoff that is set lies 365, 1095 and 30 days of 86,400 seconds back; a wrong batch size is complained about first, then a cutoff in the future |
| RetentionExecutor.SettingsTheDatabaseAccepts | src/gateway/application/services/retention_service.py:46-58 | the service refuses exactly the settings that the procedure would refuse each call under |
| RetentionExecutor.CountsAdd | alembic/versions/018_retention_executor.py:414-423 | the three parts of a call purge different rows, so their counts add up to the number of rows returned |
| RetentionExecutor.RetentionDatabase.DeleteRows | alembic/versions/018_retention_executor.py:113-116 | a DELETE of rows nothing refers to removes exactly those rows: nothing cascades and nothing is restricted |
| RetentionExecutor.RetentionDatabase.PurgeKnowledgeRevision | alembic/versions/018_retention_executor.py:107-148 | the statements delete exactly a batch of units, a batch of links and, if those were all, the revision |
| RetentionExecutor.RetentionDatabase.PurgeDocumentRevision | alembic/versions/018_retention_executor.py:202-287 | the five statements delete exactly the batches cut from the starting rows, and the revision when nothing of it is left |
| RetentionExecutor.RetentionDatabase.PurgeRoot | alembic/versions/018_retention_executor.py:289-305 | a root goes, with its purge job, exactly when none of its revisions is left |
| RetentionExecutor.RetentionDatabase.KnowledgeHalf | alembic/versions/018_retention_executor.py:82-166 | the knowledge statements have exactly the declared effect on rows and queue, and count what they delete |
| RetentionExecutor.RetentionDatabase.DocumentHalf | alembic/versions/018_retention_executor.py:168-305 | the document statements have exactly the declared effect, and return the purged revision's storage key |
| RetentionExecutor.RetentionDatabase.OperationalHalf | alembic/versions/018_retention_executor.py:307-412 | the operational statements delete exactly the declared rows |
| RetentionExecutor.RetentionDatabase.RunRetention | alembic/versions/018_retention_executor.py:33-423 | a refused call raises in the source's order and changes nothing; an accepted one has exactly the declared effect, returns every row gone, and writes one audit row with their number if there are any; what goes is what comes first (`EveryCallPurgesTheFirst`) |
| RetentionExecutor.RetentionDatabase.PurgeBatch | src/gateway/application/services/retention_service.py:37-81 | bad settings are refused and change nothing; otherwise one call under cutoffs computed at that moment, which the procedure never refuses |
| RetentionExecutor.RetentionDatabase.RunCycle | src/gateway/application/services/retention_service.py:142-166 | a cycle whose batches each compute their own cutoffs, and which ends idle, has drained the database under its last cutoffs; otherwise it was interrupted or ran out of turns, and each of its calls purged something |
| RetentionExecutor.RetentionDatabase.Archive | src/gateway/application/services/knowledge_management_service.py:329-334 | archiving sets archived_at on an unarchived root and nothing else the model has, and is one of the outside writes the run theorems quantify over |
| RetentionExecutor.RetentionDatabase.InsertLink | alembic/versions/018_retention_executor.py:429-461 | a link is stored exactly when the trigger admits it and its foreign keys hold, and is then an outside write |
| FixedChunker.FixedChunkText | src/gateway/application/parsers/chunker.py:8-32 | the empty text, the two errors, and otherwise exactly the windows; the loop always leaves at the window that reaches the end |
| FixedChunker.ChunkSizes | src/gateway/application/parsers/chunker.py:24-30 | every chunk but the last is full, and every later chunk is strictly longer than the overlap |
| FixedChunker.ChunksInvert | src/gateway/application/parsers/chunker.py:19-32 | the first chunk followed by every later one without its first `overlap` characters is the text |
| FixedChunker.ChunkCount | src/gateway/application/parsers/chunker.py:19-32 | one chunk if the text fits in a window, else 1 + ceil((n - size) / (size - overlap)) |
| FixedChunker.ChunkPosition | src/gateway/application/parsers/chunker.py:24-30 | chunk i is the slice of the text that starts i steps in |
| FixedChunker.ShortWindowsAreWhole | src/gateway/application/parsers/chunker.py:19-32 | every window of at most overlap + 1 characters lies in one chunk |
| FixedChunker.LongerWindowsAreCut | src/gateway/application/parsers/chunker.py:19-32 | any text longer than a window has a window of overlap + 2 characters that no chunk holds |
| SemanticChunker.SectionsRejoin | src/gateway/application/parsers/chunker.py:72-73 | the sections are nonempty and concatenate to the text |
| SemanticSections.SpacesAre | src/gateway/application/parsers/chunker.py:72 | white space is the 29 listed code points |
| SemanticSections.SplitExactlyWhere | src/gateway/application/parsers/chunker.py:72-73 | a text is split between two nonempty parts if and only if the second starts with a line break, one to six marks and white space, or the first ends with an empty line or a closing fence |
| SemanticSections.HeadingsStartSections | src/gateway/application/parsers/chunker.py:72 | every such heading after nonempty text starts a section, whatever follows |
| SemanticSections.BlankLinesAndFencesEndSections | src/gateway/application/parsers/chunker.py:72 | so does any text after an empty line or a closing fence |
| SemanticSections.EverySectionHasAReason | src/gateway/application/parsers/chunker.py:72-73 | every later section of every text starts for one of these three reasons |
| SemanticChunker.StripIsTrim | src/gateway/application/parsers/chunker.py:94 | stripping a slice of the text is narrowing the slice |
| SemanticChunker.WindowTexts | src/gateway/application/parsers/chunker.py:88-89 | the fixed chunks of an oversized section are slices of the text at the window positions |
| SemanticChunker.StepOnStrings | src/gateway/application/parsers/chunker.py:82-100 | one round of the loop on its two strings is one step on positions, in all three branches |
| SemanticChunker.SemanticChunksCoverInOrder | src/gateway/application/parsers/chunker.py:69-105 | every chunk is a slice of at most size + overlap characters, the slices come in text order, there is at least one, and every character that is not white space is in one |
| SemanticSections.NoChunkEndsEarly | src/gateway/application/parsers/chunker.py:81-103 | every chunk is a fixed window of a section longer than one window, or a stripped stretch that runs to the end of the text or to a section that would not fit into it any more |
| SemanticChunker.ShortStretchesAreWhole | src/gateway/application/parsers/chunker.py:96-100 | a stretch of at most overlap + 1 characters that begins and ends outside white space is whole in one chunk, unless it crosses an edge of an oversized section |
| SemanticChunker.OverlapCanExceedTheWindow | src/gateway/application/parsers/chunker.py:96-98 | for every window of four or more and every nonzero overlap, some text has a chunk of exactly size + overlap characters |
| SemanticChunker.EmptyChunkExactlyWhen | src/gateway/application/parsers/chunker.py:84-103 | some chunk is empty if and only if some round flushes a buffer that holds nothing but white space; the last flush never adds one |
| SemanticChunker.ChunksNonempty | src/gateway/application/parsers/chunker.py:84-103 | in particular none is when every section holds something other than white space |
| SemanticChunker.BlankSectionBecomesAChunk | src/gateway/application/parsers/chunker.py:84-86 | a blank first section in front of an oversized one makes the first chunk empty |
| SemanticChunker.ATextWithAnEmptyChunk | src/gateway/application/parsers/chunker.py:84-86 | two line feeds and four letters under a window of three give an empty first chunk |
| SemanticChunker.Chunker.ChunkSemantic | src/gateway/application/parsers/chunker.py:51-105 | the empty text, the two errors, the short text, and otherwise exactly the slices above: neither fall-back is reached |
| SemanticChunker.Chunker.ChunkFixed | src/gateway/application/parsers/chunker.py:40-49 | the fixed windows under the given or the default sizes, with the errors in the same order |
| SpaceOwnership.StatementKeepsOwners | alembic/versions/007_authorization_rls.py:113-145 | any statement of any transaction keeps committed rows owned, and every open transaction's view owned if it commits next |
| SpaceOwnership.ResumeKeepsOwners | alembic/versions/007_authorization_rls.py:113-135 | so does a statement that had to wait after its policy had passed |
| SpaceOwnership.CommitKeepsView | alembic/versions/007_authorization_rls.py:74-86 | another transaction's commit leaves this one's view owned: changes need the workspace row, and insertions only add |
| SpaceOwnership.EverySpaceKeepsAnOwner | alembic/versions/007_authorization_rls.py:59-86 | in every interleaving, a space that ever had a committed membership has a committed owner from then on |
| SpaceOwnership.OwnershipCanBeHandedOver | alembic/versions/007_authorization_rls.py:130-140 | one transaction can insert a new owner and give up its own ownership, and both statements are carried out |
| SpaceStatements.StatementWritesWhatItSays | alembic/versions/007_authorization_rls.py:113-145 | a statement that is carried out leaves its transaction's view with exactly the role asked for on that key, without the deleted row, or with the given columns of that space; any other changes no view, and none changes committed rows or what others see |
| SpaceStatements.ChangedExactlyWhen | alembic/versions/007_authorization_rls.py:74-86 | a role is changed or a membership deleted if and only if an active, unrestricted owner of a space that is not archived acts on a row they see, nobody else holds the workspace row or the membership, and it is not the last owner's; it waits if and only if the row is seen and held |
| SpaceStatements.InsertedExactlyWhen | alembic/versions/007_authorization_rls.py:130-135 | a membership is inserted if and only if such an owner acts, or the creator of a space without memberships makes themselves its owner, and the row is new and not being written by another transaction |
| SpaceStatements.SpaceWrittenExactlyWhen | alembic/versions/007_authorization_rls.py:113-123 | a space is created by an active member in their own name, and updated by such an owner, exactly when nobody else holds its row |
| SpaceStatements.StatementHoldsOn | alembic/versions/007_authorization_rls.py:74-86 | a change that reached the policy holds the workspace row even when it is refused; insertions of memberships hold nothing; what is held stays held until the transaction ends |
| SpaceStatements.TransactionCommitsWhatItDid | alembic/versions/007_authorization_rls.py:113-145 | through any interleaving with transactions that have not committed, a commit leaves the committed rows with the transaction's carried-out statements applied in order, and a rollback leaves them as they were |
| SpaceArchiving.NoStatementOnAnArchivedSpace | alembic/versions/007_authorization_rls.py:42-86 | no statement on an archived space that nobody is rewriting is carried out or starts to wait, whoever runs it |
| SpaceArchiving.ArchivedStaysFrozen | alembic/versions/007_authorization_rls.py:119-145 | from any state with the space archived and no other version of its row pending or waiting, its row never changes, and its memberships only by writes already pending or waiting |
| SpaceArchiving.ArchivingIsFinal | alembic/versions/007_authorization_rls.py:42-145 | once a commit archives a space while no other update of its row waits, no run changes its row, changes or removes a membership it had, passes a role check on it or carries out a statement on it |
| SpaceArchiving.AWaitingUpdateStillWrites | alembic/versions/007_authorization_rls.py:119-123 | the condition is exact: an update that waited at that commit and sets anything else can resume and commit its columns, archived_at among them |
| SpaceArchiving.OutsidersChangeNothing | alembic/versions/007_authorization_rls.py:30-73 | no run whose statements all come from actors that neither own nor created the space, or are restricted, changes its row or any of its memberships |
| SpaceOwnership.SpaceDatabase.CanChangeMembership | alembic/versions/007_authorization_rls.py:74-86 | takes the workspace row, whatever it answers, and answers by the owner check and the count of owners |
| SpaceOwnership.SpaceDatabase.ChangeMembership | alembic/versions/007_authorization_rls.py:136-145 | an update or delete waits, is refused holding the row, or is carried out, exactly as the step function says |
| SpaceOwnership.SpaceDatabase.InsertMembership | alembic/versions/007_authorization_rls.py:130-135 | an insertion needs an owner, or the creator of a space without memberships as its owner; it takes no lock, and may wait for another version of its row |
| SpaceOwnership.SpaceDatabase.UpdateWorkspace | alembic/versions/007_authorization_rls.py:119-123 | an update of the workspace row needs an owner when it begins, and then takes the row or waits for it |
| SpaceOwnership.SpaceDatabase.ResumeStatement | alembic/versions/007_authorization_rls.py:113-135 | a statement that waited goes on with the newest rows, without its policy being asked again |
| SpaceOwnership.SpaceDatabase.InsertWorkspace | alembic/versions/007_authorization_rls.py:113-118 | a workspace is inserted by its active creator |
| RefreshCoordination.StepKeepsRequests | web/lib/api-client.ts:214-233 | every step keeps: a tab has a promise exactly while it has one unfinished lock request, which is that promise's, and only the lock's holder has a call open |
| RefreshCoordination.StepKeepsRecord | web/lib/api-client.ts:188-212 | every step keeps: storage has the last success's record, or that record is lost and what is there is old |
| RefreshCoordination.RefreshesAreSpacedOut | web/lib/api-client.ts:200-212 | for any tabs, any schedule and any record of an earlier visit: at most one refresh call is open, none started within 30 s of the last success whose record survived, and the next waiting tab starts one exactly when there is no such record |
| RefreshCoordination.CallersShareOneRequest | web/lib/api-client.ts:214-233 | every call before the promise settles gets the promise of the tab's one lock request |
| RefreshCoordination.SettledPromisesAreLetGo | web/lib/api-client.ts:214-233 | on every schedule, after the `finally` of a settled promise its tab holds no promise and has no request, the others keep theirs, and its next call gets a promise that nobody held before and adds one request at the end of the queue |
| RefreshCoordination.LocksAreFreed | web/lib/api-client.ts:227-232 | on every schedule, a call that succeeds or fails frees the lock and leaves its request settled, and a tab that closes holds nothing and leaves the others alone |
| RefreshCoordination.NoPromiseIsStuck | web/lib/api-client.ts:214-233 | from every state of every schedule, every promise can settle and be let go without another tab acting, even if all calls fail, in at most two steps per waiting request and two more |
| RefreshCoordination.ALostRecordAllowsAnEarlyRefresh | web/lib/api-client.ts:210-211 | a success whose record is refused by storage lets a waiting tab refresh at once |
| RefreshCoordination.Browser.RefreshSession | web/lib/api-client.ts:214-233 | the promise handed out and the new state, with and without locks |
| RefreshCoordination.Browser.RotateSession | web/lib/api-client.ts:200-209 | a grant either settles from the record or opens a call |
| RefreshCoordination.Browser.CompleteRefresh | web/lib/api-client.ts:205-212 | the end of a call releases the lock, settles the request, and writes the record on success |
| RefreshCoordination.Browser.RunFinally | web/lib/api-client.ts:228-230 | the `finally` lets the tab's promise go |
| PagePagination.SupersededAnswersChangeNothing | web/lib/use-page-pagination.ts:90-94 | an answer to anything but the last request changes nothing; the counter and the abort signal agree on which those are |
| PagePagination.SettledViewIsTheNewest | web/lib/use-page-pagination.ts:65-126 | the view loads exactly while the newest request is unanswered, and names its page; afterwards items, page and key come from it, under the current query key, and never from a page past the end; an error keeps what was shown |
| PagePagination.FallbacksEnd | web/lib/use-page-pagination.ts:95-98 | an accepted answer settles the view or asks for a strictly smaller page; a chain from page n has at most n - 1 steps, whatever the server answers |
| PagePagination.GoToPageAsksForIt | web/lib/use-page-pagination.ts:65-91 | on every schedule, going to a number of at least one asks for that page, fractions dropped, and to anything else for the first; what is shown stays meanwhile, marked as loading |
| PagePagination.ButtonsAskForTheirPage | web/lib/use-page-pagination.ts:128-149 | on every schedule, the next page is the shown one plus one if there is one, the page before the shown one minus one, a reload asks for the page that failed or else for the shown one, and the effect for the initial page under the new key |
| PagePagination.EmptyAnswersAskForTheLastPage | web/lib/use-page-pagination.ts:95-98 | on every schedule, an empty answer from past the end asks for the last page there is and is not shown |
| PagePagination.UnmountedHookIsQuiet | web/lib/use-page-pagination.ts:128-134 | after the clean-up no answer to an earlier request changes the state |
| PagePagination.PagePaginationHook.FetchPage | web/lib/use-page-pagination.ts:65-88 | the refs and the pending state of a new request |
| PagePagination.PagePaginationHook.Resume | web/lib/use-page-pagination.ts:90-126 | what an answer does: ignored, fallen back from, shown, or shown as an error |
| PagePagination.PagePaginationHook.RunEffects | web/lib/use-page-pagination.ts:128-134 | clean-up, new key, new request, in that order |
| SpaceCache.FirstsAreFirst | web/lib/space-options.ts:24-31 | the positions kept are exactly the first occurrences of each id, in order |
| SpaceCache.MergedIdsOnce | web/lib/space-options.ts:24-31 | the merged list has every id of the pages, each once |
| SpaceCache.PagesInOrder | web/lib/space-options.ts:25 | the items come page after page |
| SpaceCache.MergePages | web/lib/space-options.ts:24-31 | filtering with the set of ids seen keeps exactly those items |
| SpaceCache.LoadsAfterAnInvalidationAreFresh | web/lib/space-options.ts:34-58 | on every schedule, a load after an invalidation is answered from a fetch begun after it: cached data within its time to live, or the promise of the generation's fetch |
| SpaceCache.OneFetchPerGeneration | web/lib/space-options.ts:38-49 | on every schedule, at most one fetch of a generation is unfinished |
| SpaceCache.AListIsServedForItsTime | web/lib/space-options.ts:34-46 | on every schedule, what the current generation's fetch delivers is served as it is, and without another fetch, to every load of the next 45 seconds |
| SpaceCache.LoadsShareOrBegin | web/lib/space-options.ts:34-51 | on every schedule, a list is served exactly while it is younger than 45 seconds; otherwise a load shares the generation's running fetch, or begins exactly one if there is none, as after its `finally` |
| SpaceCache.AccessibleSpaces.LoadAccessibleSpaces | web/lib/space-options.ts:34-51 | what a load returns, and the fetch it may begin |
| SpaceCache.AccessibleSpaces.FetchResolved | web/lib/space-options.ts:40-46 | a resolved fetch fills the cache with the merged pages if its generation is still current |
| SpaceCache.AccessibleSpaces.FetchFinished | web/lib/space-options.ts:46-48 | a finished fetch clears the promise only in its own generation |
| RequestReplay.StopsAtFinal | src/gateway/presentation/request_limits.py:30-42 | reading ahead stops exactly at the first final message |
| RequestReplay.RequestEndsAt | src/gateway/presentation/request_limits.py:33-42 | a request ends at its first chunk without `more_body` or at a disconnect; other kinds of message are passed over |
| RequestReplay.SniffedSoFar | src/gateway/presentation/quotas.py:142-144 | cutting each chunk to the room left keeps exactly the first 65536 bytes |
| RequestReplay.LimitReplay.Receive | src/gateway/presentation/request_limits.py:45-51 | the replay delivers the buffered messages and then the server's, in order, each once |
| RequestReplay.QuotaReplay.Receive | src/gateway/presentation/quotas.py:149-155 | the same, on top of the outer replay |
| RequestReplay.BufferWithinLimit | src/gateway/presentation/request_limits.py:28-42 | the message-by-message loop rejects exactly when the whole body is over the limit, and otherwise buffers the request and loses nothing |
| RequestReplay.SniffAhead | src/gateway/presentation/quotas.py:131-146 | the loop buffers exactly the request, sniffs exactly the first 65536 bytes of its body, and loses nothing |
| QuotaBalance.HeldIsWhatOpenRequestsHold | src/gateway/presentation/quotas.py:77-108 | over every interleaving of any number of requests, each principal holds what it held at first and one for each of its requests between acquire and release; when all have ended, what is held is what was held at first |
| QuotaBalance.EveryAcquisitionIsReleasedOnce | src/gateway/presentation/quotas.py:77-108 | over every interleaving, a request that is over has released what it acquired, once, after its application if that ran, whether it returned or raised |
| QuotaBalance.GrantedRequestsRun | src/gateway/presentation/quotas.py:77-108 | from any state, a granted request runs its application exactly when its window is not exceeded, and in the end nothing is held that was not held before; one that is not granted does nothing |
| QuotaBalance.QuotaService.AcquireFor | src/gateway/presentation/quotas.py:78 | an acquisition that is granted adds one to what the principal holds, and any other changes nothing held |
| QuotaBalance.QuotaService.ReleaseFor | src/gateway/presentation/quotas.py:108 | a release takes one away |
| RequestReplay.RunApp | src/gateway/presentation/request_limits.py:45-53 | an application gets the next messages in order, and returns, raises or waits where it says |
| RequestReplay.AppGetsAPrefix | src/gateway/presentation/request_limits.py:45-53 | what an application gets is a prefix of the stream, of the length it asks for before it returns or raises, or all of it if that is less |
| RequestReplay.RunAndRelease | src/gateway/presentation/quotas.py:105-108 | the `finally` releases when the application returns and when it raises, and not while it waits |
| RequestReplay.CheckAndRun | src/gateway/presentation/quotas.py:79-108 | an exceeded window releases and refuses; otherwise the application runs |
| RequestReplay.CallUnderQuota | src/gateway/presentation/quotas.py:77-108 | what one request does to the shared service, step by step, and its answer, for every acquisition, window check and end of the application |
| RequestReplay.AppRunsExactlyWhen | src/gateway/presentation/quotas.py:65-108 | the application runs exactly for a public path, without an active principal, or when the request is granted and within its window; and every request that has its answer has given back what it acquired |
| RequestReplay.HandleRequest | src/gateway/presentation/request_limits.py:13-53 | through both middlewares, the application receives exactly the messages the server sent, only if the body is within the limit, and the service ends in the state the quota steps lead to |
| ApiKeys.ReadPrinted | src/gateway/application/security/tokens.py:74 | a printed natural number consists of digits, has no leading zero unless it is zero, and reads back as itself |
| ApiKeys.TextsInFull | src/gateway/application/security/tokens.py:74 | the text of a key is the product's name, `v` and the version, the id and the secret, joined by underscores, and the digested message `v` and the version, the id and the secret, joined by colons |
| ApiKeys.OneKeyInFull | src/gateway/application/security/tokens.py:74 | one key written out, with every digit in its version, and one with a negative version |
| ApiKeys.PrintThenParse | src/gateway/application/security/tokens.py:70-93 | a printed key parses to its parts if and only if the version is natural, the id is nonempty without underscores and the secret is nonempty |
| ApiKeys.ParsedKeyText | src/gateway/application/security/tokens.py:82-93 | only texts of the printed form, with any digits for the version, parse |
| ApiKeys.IssuedKeyKeepsVerifying | src/gateway/application/security/tokens.py:103-127 | an issued key verifies under any later codec that holds its version's pepper, whichever version is active, if and only if the stored version is absent, zero or the key's own |
| ApiKeys.OnlyTheIssuedKeyVerifies | src/gateway/application/security/tokens.py:103-127 | without collisions, exactly the issued key, up to leading zeros in its version, verifies against its digest |
| ApiKeys.RetiredPepperRetiresItsKeys | src/gateway/application/security/tokens.py:116-125 | without collisions, nothing verifies against a digest whose pepper the codec no longer holds |

## Left out

Retention:

- The schema is that of migration 018 with the foreign keys of 001, 003 and 008. Children added by later
  migrations (026, 027) cascade without the executor knowing; conservation is not claimed for them.
- Columns that neither the executor, the trigger nor a key between purgeable tables mentions, and keys to
  `workspaces`, `members` and `embedding_generations`, whose rows a call never deletes.
- `SKIP LOCKED` and the advisory lock: callers are serial, as the advisory lock makes them.
- Archiving is final: `archived_at` is never cleared, and `Archive` is only called on a root without it.
- Identifiers are naturals in their order, times are whole seconds, a day is 86,400 seconds, a scope is its
  place in the collation, and the two-column key of `api_key_scopes` is one identifier.
- The deletion of storage objects after a batch, and what a cycle reports of it.
- Exceptions of the stored procedure other than its own three.

Chunkers:

- The regular-expression engine: the split is given by its three zero-width conditions, with one predicate
  for white space in `\s` and `strip`.

Spaces:

- A statement works on one row. A role check sees committed rows and its own transaction's writes as they are
  when the statement begins; a change of a membership asks once it holds the workspace row, and is retried as
  a whole if it has to wait. Multi-row statements, savepoints and the row lock that a foreign key takes on
  insertion are not modelled.
- What the services above the policies check in addition, once they hold a workspace row.
- The grants of API keys that migration 022 adds to the role check, which only narrow it.
- The policies on content tables and the select policies; deletion of members and of spaces, which the
  application role may not do.

Client protocols:

- The clock does not run backwards and is one for all tabs. A closed tab's call counts as aborted.
- Retries in `apiRequest` and the idempotency keys they draw; the 20 second time-out is a failed call.
- `client-capabilities.ts`, which is the same cache again.
- A server answer has the declared shape; page totals are integers. Rendering and the callers of the hook.
- The page requests of `fetchAccessibleSpaces` themselves: a fetch resolves with pages or is rejected.

Middlewares and keys:

- Cancellation between the acquisition and the application, responses and headers, which paths are public,
  and the reading of a space from query and body, which is a parameter of the sniffed bytes.
- The middlewares between the two, which pass `receive` through. A wait for a message that never comes ends
  the request without an answer; an application that asks for more than the server sends waits, and its
  request holds what it acquired.
- HMAC and randomness: the digest is an arbitrary function, and only the lemmas that say so assume that it
  has no collisions. Version digits are ASCII and have no length limit.
- `OpaqueTokenCodec` and the construction of the codec from a single pepper.
