# Mail Control: verified models of the mailbox and alert protocols

Mail Control keeps a local copy of several Gmail and Microsoft mailboxes per tenant, refreshes OAuth
grants in the background, lets the owner pause, resume and reconnect accounts, and turns analysed
messages into incidents and alerts. This project models the parts of the repository whose correctness
depends on interleavings, interruptions and order, and proves what they promise for every input, every
run and every reachable state.

`dafny verify dfyconfig.toml` checks everything.

## How the models are laid out

- `Wrappers`, `Ascii`: shared values.
- `AuthState`: the account row, the mapped object with its unflushed attributes, and the conditional
  write that protects a newer grant. `TokenManager`: one call of `access_token`. `RefreshProtocol`: all
  interleavings of refreshes, synchronizations and the owner's requests, as a step system.
- `MailLog`: a provider's mailbox as an append-only log of changes, and what it means that a store
  *covers* it from a position on. `MailStore`: the stored rows, cursors and transactions.
- `GmailLog`, `GmailClient`, `GmailSync`: full import, history replay, and whole lives of an account.
- `DeltaLog`, `GraphClient`, `FolderTree`, `MicrosoftSync`: one delta feed per folder, moves that look
  like removals, expired links, and the folder traversal. `DeltaRuns`, `Deletions`: runs of walks,
  page by page, and the deletions they are certain to notice. `SyncRuns`: the counters of both.
- `Incidents`, `AnalysisService`: the incident projection and its alerts, first as functions on values,
  then as the loops and in-place updates of the repository class.
- `Outbox`, `Cooldown`: step systems for the analysis outbox and for deliveries around lock and cooldown.
- `Retry`: the two bounded retry loops. `MimeWalk`: the explicit-stack MIME walk, attachment keys and
  bodies. `Keyset`, `Cursor`, `Paging`: keyset pages and their text cursors. `Counters`: rolled-up
  counters and category filters. `Backfill`: the local backfill and the user's choices.

In the synchronization classes everything that may happen outside happens at every provider call: the
mailbox changes, the owner pauses, resumes or reconnects, other requests patch rows, a token refresh
commits what was stored so far, the call fails, or the process dies. Each reachable state keeps two
versions of the database, the running transaction's and the committed one, and both are proved sound.

## What was found

- A rotated grant can be lost, and the next exchange then uses a superseded one: when the owner pauses
  the account while an exchange is on its way, because the conditional write is refused although the row
  still holds the exchanged grant; and on an open account, when the publication raises, the process dies
  before it, or the provider's answer never arrives. `RefreshProtocol.PauseLosesARotation` and
  `InterruptionLosesARotation` give the runs; an exchange uses a superseded grant if and only if an
  earlier step lost a rotation of it in one of these ways (`LostExactly`, `SupersededOnlyIfLost`).
- A Microsoft deletion can be missed for good. Over all runs, with remote changes between any two calls,
  failing walks and expired links, a deletion is certain to be noticed if and only if it came after the
  first link of the folder's current chain (`Deletions.DeletedMessagesAreGone`). Expired links are not the
  only cause. In runs without any, the chain begins where the folder's first finished walk ended
  (`DeltaRuns.FloorIsFirstWalk`), and an earlier deletion is certain to be noticed if and only if it came
  before the folder was first asked for and the message had been seen in no other folder
  (`Deletions.DeletionsWithoutExpiry`). For every other deletion a run that misses it is constructed: the
  link expired (`DeletionWhileExpired`), the message was learnt in another folder
  (`DeletionBeforeTheFirstWalk`), or it was delivered by an early page of the folder's first walk and
  deleted before the last one (`DeletionDuringTheFirstWalk`).
- The service key is computed twice, in Python and in SQL. They agree exactly when the first name that
  is not NULL has a letter or a digit (`Incidents.KeysAgreeExactly`), and alerts agree with incidents in
  every run over one service exactly then (`AgreementExactlyWhenKeysAgree`).
- The number next to a category equals the length of the list it opens, except for the filter values
  that are empty or that ask for unanalysed messages (`Counters.FilterMatchesCounter`).
- A transient failure leaves no deadline behind when something raises between the failure and its
  cooldown key, when the process dies there, or when the conditional write that records the failure is
  refused, because the owner has paused the account or another grant has been stored meanwhile. The
  provider can then be contacted too early exactly if the deadline lies beyond the moment the account lock
  can be taken again: at once after an exception or a refused write, at the end of the lease after a death
  (`Cooldown.DroppedExactly`, `DeadlineIsMissedExactly`). Whatever later failure gets its cooldown is
  respected again (`NoContactBeforeTheDeadline`).
- An outbox event is PROCESSED for good exactly when no worker holds it any more: a completing commit
  that took effect but raised is followed by `fail`, which has no guard on the status
  (`Outbox.ProcessedForGood`). The message keeps its one analysis.
- Pages never repeat a sort key. A row appears on them twice only if it moved down the list between two
  requests, and exactly once if its sort key stays (`Paging.IdsAreShownOnce`).
- In `_payload` the check after adding a decoded body can never fire, because `decode_attachment`
  already enforces the remaining limit.

## Assumptions

- Redis leases outlive the work of a living process; a committed statement or transaction is one atomic step,
  and so is a PATCH. Deliveries for one account exclude each other (`Cooldown.OneDeliveryAtWork`).
- `list_messages` returns, over all pages, every id that exists and does not change meanwhile; the pages
  of one `history` walk contain all changes up to the returned history id, and nothing is assumed about
  a page that follows a failure. A delta walk delivers, up to the link it ends with, every change of the
  folder after the link it started from, or without one every message now in the folder. An entry carries
  the message as of the delivery of its page. Ids are never reused. Page chains are finite.
- The folder tree stands still during one synchronization. Grants and access tokens are fresh when issued.
- Service names are ASCII. A sleep lasts at least as
  long as asked; clocks do not run backwards. A stored message
  keeps the event time with which it was analysed; synchronizing it again could store another one.

## Model

| member | source | states |
|---|---|---|
| AuthState.AccountSession.ResetAssignments | src/mail_control/modules/mail/auth_state.py:28-34 | after the loop every listed column is back at its last flushed value and nothing assigned survives, whatever was assigned before |
| AuthState.AccountSession.UpdateAccountIfCurrent | src/mail_control/modules/mail/auth_state.py:22-51 | the row changes, to exactly the given values, if and only if it still holds the expected grant and an admissible status; no unflushed assignment ever reaches it; on refusal the object equals the row |
| AuthState.AccountSession.MarkReauthIfCurrent | src/mail_control/modules/mail/auth_state.py:54-61 | a refusal counts against the grant stamped on the error, and otherwise leaves the row alone |
| AuthState.EveryFieldIsListed | src/mail_control/modules/mail/auth_state.py:12-15 | the list the reset loop walks contains every protected column |
| AuthState.NothingLeft | src/mail_control/modules/mail/auth_state.py:30-34 | visiting the listed columns undoes every unflushed assignment |
| AuthState.AccountSession.OthersCommit | src/mail_control/api/dashboard.py:117-139 | what pause, resume, reconnect, publication and refusal of other transactions write, never the history cursor, and never while this transaction holds the row |
| AuthState.AccountSession.ReloadTokenFields | src/mail_control/modules/mail/token_manager.py:57-60 | the token columns are read back after a flush; the other columns keep their in-memory value |
| TokenManager.AccountTokenManager.Publish | src/mail_control/modules/mail/token_manager.py:81-92 | new tokens are stored exactly when the row still holds the grant they were exchanged for and an admissible status, and are committed before the call returns; a refused write leaves the row alone; a write or commit that raises may have taken effect or not |
| TokenManager.AccountTokenManager.AccessToken | src/mail_control/modules/mail/token_manager.py:46-97 | the returned token is stored in the row: either usable and not the rejected one, or just published and committed; a stamp is the very grant that was read under the lock and sent, and a refused grant is always stamped; an account counts as unavailable only if it is paused, refused or without a grant; the mail data is only ever committed, never changed |
| RefreshProtocol.RunKeepsInv | src/mail_control/modules/mail/token_manager.py:46-97 | the invariant of the whole protocol holds after any steps of any workers and of the owner, with publications that raise, answers that get lost and workers that die |
| RefreshProtocol.SingleFlight | src/mail_control/modules/mail/token_manager.py:48-53 | no two exchanges for one account are ever on their way together |
| RefreshProtocol.RefusalsHitTheirOwnGrant | src/mail_control/modules/mail/auth_state.py:54-61 | an account is in REAUTH_REQUIRED only with a grant the provider refused, never because of an older one |
| RefreshProtocol.SupersededOnlyIfLost | src/mail_control/modules/mail/token_manager.py:74-92 | an exchange uses a superseded grant if and only if an earlier step of the run lost a rotation of that grant |
| RefreshProtocol.LostExactly | src/mail_control/modules/mail/token_manager.py:74-97 | a rotation is lost exactly while the row still holds the exchanged grant and its status no longer admits the write, the publication raises, the process dies, or the answer never arrives |
| RefreshProtocol.LostExactlyInRuns | src/mail_control/modules/mail/token_manager.py:74-97 | over whole runs the lost rotations are exactly those some step lost |
| RefreshProtocol.OpenStepLosesNothing | src/mail_control/modules/mail/auth_state.py:35-45 | no step but a pause, a recorded refusal or an interrupted exchange closes an open account or loses a rotation |
| RefreshProtocol.NothingLostWhileOpen | src/mail_control/modules/mail/token_manager.py:87-92 | while the account stays open and every exchange reaches its end no rotation is lost, so no exchange uses a superseded grant |
| RefreshProtocol.PauseLosesARotation | src/mail_control/api/dashboard.py:117-139 | a concrete run of refresh, pause and resume after which an exchange carries a superseded grant |
| RefreshProtocol.InterruptionLosesARotation | src/mail_control/modules/mail/token_manager.py:87-97 | runs without any pause: a publication that raises, or an answer that never arrives, after which an exchange carries a superseded grant |
| RefreshProtocol.PausedStaysPaused | src/mail_control/modules/mail/auth_state.py:35-45 | no step of any worker revives a paused account |
| RefreshProtocol.WritesNeedTheCurrentGrant | src/mail_control/modules/mail/auth_state.py:38-45 | a background step changes the row only if it still holds the grant that worker last read or the grant stamped on its error |
| RefreshProtocol.ReplacedGrantsStayReplaced | src/mail_control/modules/mail/service.py:54-62 | after a reconnect no worker brings an older grant back |
| RefreshProtocol.PublicationIsShared | src/mail_control/modules/mail/token_manager.py:87-94 | right after a publication the row holds the published token for every later caller |
| RefreshProtocol.QuietStepKeepsShared | src/mail_control/modules/mail/token_manager.py:54-72 | a publication stays visible through every step that neither expires, rejects nor replaces it |
| RefreshProtocol.WaitersGetThePublishedToken | src/mail_control/modules/mail/token_manager.py:54-72 | a caller that waited behind a successful exchange returns the published token unless it is the one it saw rejected |
| MailStore.MailRepository.Store | src/mail_control/modules/mail/repository.py:132-154 | the row is stored as given, undeleted, with the user's choices untouched and shown on top; tells inserts from updates |
| MailStore.MailRepository.MarkDeleted | src/mail_control/modules/mail/repository.py:95-108 | only this row is marked, and only if it exists |
| MailStore.MailRepository.ActiveProviderMessageIds | src/mail_control/modules/mail/repository.py:85-93 | exactly the ids that are stored and not deleted |
| MailStore.MailRepository.UpdateAccountState | src/mail_control/modules/mail/repository.py:28-32 | a conditional write under the grant stamped on the error, else the grant the object holds |
| MailStore.MailRepository.Commit | src/mail_control/modules/mail/repository.py:187-193 | rows, cursors and account columns become durable together |
| MailStore.MailRepository.Rollback | src/mail_control/modules/mail/repository.py:187-188 | a transaction that does not commit leaves nothing behind |
| MailStore.MailRepository.OthersPatch | src/mail_control/api/dashboard.py:203-225 | a PATCH changes no message, no deletion and no provider state |
| MailStore.PatchKeepsChoices | src/mail_control/api/dashboard.py:219-224 | after a PATCH every visible state is the local override when set and the provider state otherwise |
| MailStore.StoringKeepsChoices | src/mail_control/modules/mail/repository.py:144-154 | so it is after a message is stored again or marked deleted |
| MailStore.MailRepository.Meanwhile | src/mail_control/api/dashboard.py:117-225 | any number of committed steps of others leave the mail data of both database versions the same |
| MailStore.UndisturbedIsTransitive | src/mail_control/modules/mail/token_manager.py:87-93 | what may happen behind one provider call may happen behind several |
| MailLog.UnchangedStaysTheSame | src/mail_control/modules/mail/sync.py:246-264 | a message without a change after a position is what it was at that position |
| MailLog.CoverageSurvivesGrowth | src/mail_control/modules/mail/sync.py:83-131 | remote changes never break coverage: they touch the message, or leave it as it was |
| MailLog.GrowthKeepsCoverage | src/mail_control/modules/mail/sync.py:83-131 | every claim of coverage survives any remote changes and any writes of other requests |
| MailLog.RefreshKeepsCoverage | src/mail_control/modules/mail/sync.py:220-233 | storing what a lookup returns, or burying what it does not find, hurts no claim of coverage |
| MailLog.PassOneMore | src/mail_control/modules/mail/sync.py:185-186 | looking up one more message covers it from where the pass began, and keeps the rest |
| MailLog.PageIsWalked | src/mail_control/modules/mail/sync.py:252-259 | once all ids of a page were looked up, each of its changes is covered from behind itself |
| MailLog.LastChangeCovers | src/mail_control/modules/mail/sync.py:246-264 | one message: coverage at the start of a walk and lookups behind its changes give coverage at the end |
| MailLog.WalkedHistoryCovers | src/mail_control/modules/mail/sync.py:246-264 | a walk over all changes in [c, h) moves coverage of the whole store from c to h |
| MailLog.EarlierIsCoveredToo | src/mail_control/modules/mail/sync.py:246-264 | coverage at a position implies coverage at every earlier one |
| GmailLog.SoundnessSpelledOut | src/mail_control/modules/mail/sync.py:83-264 | soundness of a database version in plain terms: the history cursor covers the store, a marker that permits skipping covers every active row |
| GmailLog.GrowthKeepsSoundness | src/mail_control/modules/mail/sync.py:83-131 | both promises survive remote changes and other requests |
| GmailLog.RefreshKeepsSoundness | src/mail_control/modules/mail/sync.py:220-233 | both promises survive every lookup |
| GmailLog.NewCursorIsSound | src/mail_control/modules/mail/sync.py:111-114 | a covering position may become the stored history cursor |
| GmailLog.NewMarkerIsSound | src/mail_control/modules/mail/sync.py:148-165 | a new baseline may permit skipping only while nothing is active |
| GmailLog.ListingStaysComplete | src/mail_control/modules/mail/sync.py:166-181 | what a listing owes stays owed and delivered while the mailbox changes |
| GmailLog.ImportCoversBaseline | src/mail_control/modules/mail/sync.py:144-189 | listing, skipping active rows when allowed, and verifying unlisted ones covers the whole store from the baseline |
| GmailClient.GmailClient.Request | src/mail_control/modules/mail/gmail.py:351-417 | behind a call anything may happen that keeps both database versions sound and the transaction's mail data the same |
| GmailClient.GmailClient.ListMessages | src/mail_control/modules/mail/gmail.py:285-294 | the pages together contain every id that exists throughout without changing |
| GmailClient.GmailClient.GetMessage | src/mail_control/modules/mail/gmail.py:296-305 | the current message, or not-found exactly as evidence that there is none |
| GmailClient.GmailClient.History | src/mail_control/modules/mail/gmail.py:316-333 | the pages together contain every change between the start and the reported history id; expiry can come at any page |
| GmailClient.HealthSurvives | src/mail_control/modules/mail/sync.py:83-131 | both database versions stay sound and tombstones stay earned through everything behind a call |
| GmailClient.LookupKeepsHealth | src/mail_control/modules/mail/sync.py:220-233 | a row becomes a tombstone only after a lookup of its id found nothing, and a later find clears it |
| GmailClient.PresentWasChanged | src/mail_control/modules/mail/gmail.py:285-294 | every id that exists appears in the log the listing is taken from |
| GmailSync.GmailSyncService.RefreshMessage | src/mail_control/modules/mail/sync.py:220-233 | afterwards the store and the provider agree on the message, and no other message changed |
| GmailSync.GmailSyncService.ReplayPage | src/mail_control/modules/mail/sync.py:251-259 | every change of the page was followed by a lookup of its message |
| GmailSync.GmailSyncService.ReplayHistory | src/mail_control/modules/mail/sync.py:246-264 | the returned history id covers the store, and everything unchanged since the replay began agrees with the provider; stored cursors are untouched |
| GmailSync.GmailSyncService.ImportPage | src/mail_control/modules/mail/sync.py:170-175 | exactly the wanted ids of the page were looked up |
| GmailSync.GmailSyncService.FetchListing | src/mail_control/modules/mail/sync.py:168-181 | the listing loop keeps what was listed and looked up, and commits each page with its marker |
| GmailSync.GmailSyncService.ImportListing | src/mail_control/modules/mail/sync.py:166-181 | the whole listing is complete and its wanted ids were looked up |
| GmailSync.GmailSyncService.Baseline | src/mail_control/modules/mail/sync.py:146-165 | a readable marker is taken up as it is; otherwise a new baseline permits skipping only when nothing is active; one that permits skipping covers every active row |
| GmailSync.GmailSyncService.ImportFrom | src/mail_control/modules/mail/sync.py:165-192 | from any baseline, an import that ends well covers the whole store |
| GmailSync.GmailSyncService.SpoilMarker | src/mail_control/modules/mail/sync.py:190-193 | an expired baseline leaves only a marker that permits nothing |
| GmailSync.GmailSyncService.FullSync | src/mail_control/modules/mail/sync.py:133-201 | at most two attempts; success covers the store and removes the marker, failure leaves sound promises; the stored history cursor does not move either way |
| GmailSync.GmailSyncService.Work | src/mail_control/modules/mail/sync.py:101-110 | the incremental path, or the full import it falls back to, ends with a covering position held in memory only |
| GmailSync.GmailSyncService.Succeed | src/mail_control/modules/mail/sync.py:111-115 | the history cursor on disk moves only through the conditional write, together with status, rows and marker |
| GmailSync.GmailSyncService.RecordFailure | src/mail_control/modules/mail/sync.py:116-127 | exactly what a failure writes: under the grant it is stamped with, REAUTH_REQUIRED only for a refusal, and nothing once the account has changed |
| GmailSync.GmailSyncService.Abort | src/mail_control/modules/mail/sync.py:116-130 | whatever the failure, the commit in finally leaves the stored history cursor as it was |
| GmailSync.GmailSyncService.Synchronize | src/mail_control/modules/mail/sync.py:83-131 | success covers everything unchanged since the run began and stores a covering cursor, failure leaves the stored cursor alone; both database versions stay sound in every case |
| GmailSync.AnyLife | src/mail_control/modules/mail/sync.py:83-264 | over any life of an account: the stored cursor covers the committed store, a pending marker that permits skipping covers its active rows, a tombstone stands only where the last lookup found nothing, and the user's choices show |
| SyncRuns.SyncRun.Record | src/mail_control/modules/mail/sync.py:266-275 | every message seen is counted once, as created or as updated |
| DeltaLog.KeysDiffer | src/mail_control/modules/mail/microsoft_sync.py:110 | different folders have different cursor keys |
| DeltaLog.StaysSound | src/mail_control/modules/mail/microsoft_sync.py:181-244 | the promises of all folder links carry over to any state that keeps the claims of coverage |
| DeltaLog.StoringAnEntry | src/mail_control/modules/mail/microsoft_sync.py:195-212 | storing an entry as of the delivery of its page keeps every claim made before that delivery, even over a newer row |
| DeltaLog.DeliversLater | src/mail_control/modules/mail/microsoft_sync.py:193-235 | what a walk owes is not increased by later changes |
| DeltaLog.WalkedFolderIsSound | src/mail_control/modules/mail/microsoft_sync.py:193-233 | a finished walk, with or without a link to start from, may store its new link |
| DeltaLog.NewLinkKeepsSoundness | src/mail_control/modules/mail/microsoft_sync.py:222-233 | a new link of one folder leaves the promises of the others |
| DeltaLog.HeldMessagesAreCurrent | src/mail_control/modules/mail/microsoft_sync.py:181-244 | a message the provider holds, with no feed entry past the stored links, is stored as it is |
| DeltaLog.ChainedDeletionIsGone | src/mail_control/modules/mail/microsoft_sync.py:197-209 | a deletion within a folder's chain of links is in the store, in every sound state |
| DeltaLog.WholeFeedDelivers | src/mail_control/modules/mail/microsoft.py:302-318 | reading a feed to its end delivers all that a walk owes |
| DeltaLog.FeedCarries | src/mail_control/modules/mail/microsoft.py:302-318 | every change a page carries has an entry on it |
| DeltaLog.FeedOnly | src/mail_control/modules/mail/microsoft.py:302-318 | a page lists a message only for a change it carries |
| DeltaRuns.EntriesPass | src/mail_control/modules/mail/microsoft_sync.py:195-219 | the handled entries of a page, each at its own moment, cost no claim of coverage and cover their messages from the page's delivery on |
| DeltaRuns.WalkIsSound | src/mail_control/modules/mail/microsoft_sync.py:190-235 | a walk of any pages, finished or abandoned anywhere, keeps the promises of all links, with remote changes between all its calls |
| DeltaRuns.RunIsSound | src/mail_control/modules/mail/microsoft_sync.py:181-244 | every run of such walks and of expiries keeps the promises of every link |
| DeltaRuns.NeverStored | src/mail_control/modules/mail/microsoft_sync.py:181-244 | a message seen in no other folder is not stored by any run that first asks for its folder behind its deletion |
| DeltaRuns.FloorIsLater | src/mail_control/modules/mail/microsoft_sync.py:222-233 | a chain of links begins no earlier than the folder was first asked for |
| Deletions.StillPageMail | src/mail_control/modules/mail/microsoft_sync.py:195-219 | a page during which the provider stands still makes every listed message what the provider has, and leaves every other one |
| Deletions.DeletionWhileExpired | src/mail_control/modules/mail/microsoft_sync.py:236-244 | for every deletion before a chain's first link, a run with an expired link that reaches this link, leaves nothing pending and the message active |
| Deletions.DeletionBeforeTheFirstWalk | src/mail_control/modules/mail/microsoft_sync.py:106-119 | the same without an expired link, for every message that was also seen in another folder and deleted before its last folder was first asked for |
| Deletions.DeletionDuringTheFirstWalk | src/mail_control/modules/mail/microsoft_sync.py:193-233 | the same for every message deleted between the first request of the folder's first walk and its end |
| Deletions.DeletedMessagesAreGone | src/mail_control/modules/mail/microsoft_sync.py:181-244 | a deletion before a folder's link is noticed by every run that reaches the link with nothing pending, if and only if it came after the first link of that chain |
| Deletions.DeletionsWithoutExpiry | src/mail_control/modules/mail/microsoft_sync.py:181-244 | given when the folder was first asked for: if and only if it came after the first link of the chain, or before that request and of a message seen in no other folder; the same for all runs as for those without an expired link |
| DeltaRuns.FloorIsFirstWalk | src/mail_control/modules/mail/microsoft_sync.py:222-233 | without an expired link a folder's chain begins where its first finished walk ended |
| GraphClient.HandlingKeepsHealth | src/mail_control/modules/mail/microsoft_sync.py:195-219 | handling an entry keeps both database versions sound, and a row is a tombstone only if the last report about its id was a lookup that found nothing |
| GraphClient.HealthSurvives | src/mail_control/modules/mail/microsoft_sync.py:83-153 | soundness survives everything behind a Graph call |
| GraphClient.MicrosoftGraphClient.Delta | src/mail_control/modules/mail/microsoft.py:302-318 | the pages of a walk together deliver what it owes; the new link is no older than the walk and continues the chain of links |
| GraphClient.MicrosoftGraphClient.Folders | src/mail_control/modules/mail/microsoft.py:244-250 | the pages of one level of folders are that level, in order |
| GraphClient.MicrosoftGraphClient.GetMessage | src/mail_control/modules/mail/microsoft.py:282-283 | the current message, or not-found as evidence that there is none |
| FolderTree.NextLevel | src/mail_control/modules/mail/microsoft_sync.py:164-178 | popping a parent and listing its children keeps every folder either listed or below the queue, and shrinks what is below it |
| FolderTree.ParentsHoldEverything | src/mail_control/modules/mail/microsoft_sync.py:164 | skipping folders without children skips no folder |
| FolderTree.NothingRemains | src/mail_control/modules/mail/microsoft_sync.py:165-179 | with an empty queue the result lists every folder of the forest exactly as often as it occurs |
| MicrosoftSync.MicrosoftSyncService.HandleEntry | src/mail_control/modules/mail/microsoft_sync.py:195-219 | an entry with a message is stored as delivered, a removal is looked up by its id and only then buried; up to what other requests write, the rows are those of the entry function the runs are made of |
| MicrosoftSync.MicrosoftSyncService.HandleEntries | src/mail_control/modules/mail/microsoft_sync.py:195-219 | all ids of the page are looked up or stored, and the rows are those of the page function, for the logs in time order that its lookups met |
| MicrosoftSync.MicrosoftSyncService.WalkPage | src/mail_control/modules/mail/microsoft_sync.py:193-221 | every change the page carries is covered from behind itself |
| MicrosoftSync.MicrosoftSyncService.WalkFolder | src/mail_control/modules/mail/microsoft_sync.py:190-235 | a finished walk moves this folder's link past everything that existed when it began, and no other link |
| MicrosoftSync.MicrosoftSyncService.SyncFolder | src/mail_control/modules/mail/microsoft_sync.py:181-244 | an expired link is dropped and the folder walked again, so that expiry only ever surfaces without a link; a failure leaves the old link or none |
| MicrosoftSync.MicrosoftSyncService.AllFolders | src/mail_control/modules/mail/microsoft_sync.py:155-179 | every folder of the tree, each exactly once |
| MicrosoftSync.MicrosoftSyncService.SyncFolders | src/mail_control/modules/mail/microsoft_sync.py:106-119 | every listed folder is read past everything that existed when the loop began |
| MicrosoftSync.ListedIsReached | src/mail_control/modules/mail/microsoft_sync.py:106-119 | reading every listed folder reads every folder of the tree |
| MicrosoftSync.ReachedTreeIsCurrent | src/mail_control/modules/mail/microsoft_sync.py:106-119 | with every folder read that far, every held message unchanged since is stored as it is |
| MicrosoftSync.MicrosoftSyncService.RecordFailure | src/mail_control/modules/mail/microsoft_sync.py:127-149 | exactly what a failure writes, under the grant it is stamped with; a transient failure restores the status the run began with |
| MicrosoftSync.MicrosoftSyncService.Conclude | src/mail_control/modules/mail/microsoft_sync.py:127-152 | whatever the failure, finally commits a sound store or nothing |
| MicrosoftSync.MicrosoftSyncService.Synchronize | src/mail_control/modules/mail/microsoft_sync.py:83-153 | success leaves every message of the tree that did not change since the run began as it is at the provider; both database versions stay sound in every case |
| MicrosoftSync.AnyLife | src/mail_control/modules/mail/microsoft_sync.py:83-244 | over any life of an account: held messages with nothing pending are current, deletions behind a chain's first link are known, a tombstone stands only where the last lookup found nothing, choices show |
| Incidents.KeysAgreeExactly | src/mail_control/modules/analysis/service.py:66-69 | the Python key equals the SQL key if and only if the first name that is not NULL has a letter or digit |
| Incidents.ProjectionIsMaximum | src/mail_control/modules/analysis/repository.py:127-172 | after any sequence of events every incident row is the maximum of its events under time, then resolved above active |
| Incidents.OrderDoesNotMatter | src/mail_control/modules/analysis/repository.py:68-125 | two orders of the same events leave every key with the same status at the same time |
| Incidents.MigrationPicksTheSameState | alembic/versions/20260815_0012_analysis_incidents.py:142-166 | the migration's ranked first row has the status and time of the incremental projection, and the analysis up to ties |
| Incidents.MaximumOfOneMore | src/mail_control/modules/analysis/repository.py:150-172 | one event keeps the row a maximum, opening and resolving alike |
| Incidents.AnalysedMessages | src/mail_control/modules/analysis/service.py:162-165 | a redelivered message is recognised |
| Incidents.EventKeepsOpenCurrent | src/mail_control/modules/analysis/repository.py:207-250 | after an event an open payment or renewal alert belongs to its incident's current analysis, and the incident is active |
| Incidents.EventKeepsCurrentOpen | src/mail_control/modules/analysis/repository.py:207-250 | after an event an active incident has the open alert of its current analysis |
| Incidents.EventKeepsDates | src/mail_control/modules/analysis/repository.py:174-205 | no alert is closed at a time before its own message |
| Incidents.EventKeepsAgreement | src/mail_control/modules/analysis/repository.py:68-125 | one processed message keeps alerts and incidents in agreement |
| Incidents.RunAgrees | src/mail_control/modules/analysis/service.py:162-210 | so does any run, out of order, tied, opening and resolving at once |
| Incidents.OneOpenAlertPerActiveIncident | src/mail_control/modules/analysis/repository.py:207-250 | a key has at most one open alert, and only while it is active |
| Incidents.MigrationClosesNothingMore | alembic/versions/20260815_0012_analysis_incidents.py:172-192 | after any run the migration's clean-up of alerts finds nothing to close |
| Incidents.AgreementExactlyWhenKeysAgree | src/mail_control/modules/analysis/repository.py:221-243 | alerts agree with incidents in every run over one service if and only if the two computations of its key agree |
| Incidents.TwoRejections | src/mail_control/modules/analysis/repository.py:221-243 | where the keys differ, two rejected payments leave two open alerts |
| AnalysisService.Remaining | src/mail_control/modules/analysis/service.py:133-135 | keeps exactly the types that are no payment alert |
| AnalysisService.DeduplicationKeepsOrder | src/mail_control/modules/analysis/service.py:147-150 | deduplication loses no type, repeats none and keeps the order of first appearance |
| AnalysisService.AnalysisResult.SuppressConfirmedPaymentAlerts | src/mail_control/modules/analysis/service.py:122-144 | changes the answer exactly when the text confirms a payment, reports no failure and a payment alert was raised; then no payment alert is left |
| AnalysisService.EventsComeFromTransitions | src/mail_control/modules/analysis/service.py:72-104 | a message opens payment incidents for exactly the payment alerts it raises |
| AnalysisService.OpensAndResolves | src/mail_control/modules/analysis/service.py:72-104 | exactly when one message opens and resolves the same payment incident |
| AnalysisService.SettledTypes | src/mail_control/modules/analysis/service.py:168-169 | the stored types repeat nothing and are those the model answered, less payment alerts a confirmation rules out |
| AnalysisService.OpeningOneMore | src/mail_control/modules/analysis/repository.py:83-107 | one turn of the loop over opened types extends the row-by-row projection by that type |
| AnalysisService.ResolvingOneMore | src/mail_control/modules/analysis/repository.py:108-125 | so does one turn of the loop over resolved types |
| AnalysisService.AnalysisRepository.UpsertIncident | src/mail_control/modules/analysis/repository.py:127-172 | a row is inserted, or overwritten exactly by a later event or a resolution at the same time; tells whether it was |
| AnalysisService.AnalysisRepository.ResolveMatchingAlerts | src/mail_control/modules/analysis/repository.py:207-250 | an alert changes only if it is open, of the kind and account, no newer than the event and under the event's key, and then closes at the time of the event, never before its own message; no such alert stays open but the excluded one |
| AnalysisService.AnalysisRepository.ResolveRejectedBackfillAlert | src/mail_control/modules/analysis/repository.py:174-205 | changes at most the event's own alert of the kind, which does not stay open: it closes at the time of the state that prevailed, never before its own message |
| AnalysisService.AnalysisRepository.AddAlerts | src/mail_control/modules/analysis/service.py:190-201 | adds one alert per type; the unique index on open alerts is never violated |
| AnalysisService.AnalysisRepository.ReconcileIncidents | src/mail_control/modules/analysis/repository.py:68-125 | whatever order the sets are visited in, the tables become the row-by-row projection |
| AnalysisService.Process | src/mail_control/modules/analysis/service.py:162-210 | one message, redelivered or not, answered or not, moves the tables by exactly one event of the projection or not at all |
| AnalysisService.AnyHistory | src/mail_control/modules/analysis/service.py:162-210 | over any history of messages alerts and incidents agree, while the service keys do |
| Outbox.OutboxRuns | src/mail_control/modules/analysis/repository.py:26-42 | over any run: one event per message, at most eight claims of it, each a backoff after the one before, one worker at a time, and processed means analysed exactly once or gone |
| Outbox.ProcessedForGood | src/mail_control/modules/analysis/repository.py:252-272 | a processed event stays so through every continuation if and only if no worker holds it any more |
| Outbox.ProcessedIsReverted | src/mail_control/modules/analysis/repository.py:258-272 | a processed event changes exactly when the worker that still holds it reports a failure; no worker takes hold of it again |
| Outbox.ClaimKeepsPace | src/mail_control/modules/analysis/repository.py:26-42 | a claim comes no earlier than the backoff of the failure before it |
| Outbox.EightClaims | src/mail_control/modules/analysis/repository.py:258-272 | eight claims span at least 3810 seconds, and there is no ninth |
| Outbox.StepKeepsAnalysed | src/mail_control/modules/mail/repository.py:156-182 | queueing again adds no event; a message never has two analyses |
| Cooldown.CooldownReachesDeadline | src/mail_control/worker.py:147-156 | the cooldown expires at or after retry_at, with truncation and margin as with rounding up |
| Cooldown.StepKeepsGuard | src/mail_control/worker.py:178-207 | after every step a failure without its cooldown is pending under the account lock or known to be dropped, and a key that was set outlasts the deadline |
| Cooldown.NoContactBeforeTheDeadline | src/mail_control/worker.py:71-163 | no delivery contacts the provider before the retry_at of the last transient failure, unless that very failure got no cooldown |
| Cooldown.DroppedExactly | src/mail_control/worker.py:100-163 | a failure loses its cooldown exactly by an exception or a death before the key is set, or by a refused conditional write, and the next failure starts afresh |
| Cooldown.DeadlineIsMissedExactly | src/mail_control/worker.py:147-207 | from any reachable state some continuation contacts the provider before the deadline of the last failure if and only if its cooldown was dropped and the deadline lies beyond the time the lock can be taken again |
| Cooldown.ExceptionDropsTheDeadline | src/mail_control/worker.py:147-156 | an exception in the gap lets the redelivery contact the provider at once, whatever the deadline |
| Cooldown.PauseDropsTheDeadline | src/mail_control/api/dashboard.py:116-139 | so does a pause in the gap, after the resume, with no exception, no death and no other grant |
| Cooldown.OneDeliveryAtWork | src/mail_control/microsoft_worker.py:140-166 | never two deliveries for one account at work |
| Cooldown.DroppedDeadline | src/mail_control/microsoft_worker.py:38-49 | a death in the gap lets the next delivery contact the provider at the end of the lease, with the deadline still ahead |
| Retry.GmailDeadlineIsTheLater | src/mail_control/modules/mail/gmail.py:67-94 | the deadline is the later of header and message, and nothing else |
| Retry.DelayMeetsDeadline | src/mail_control/modules/mail/microsoft.py:457-474 | waiting out a delay computed later meets the deadline read earlier from the same header |
| Retry.GmailRequest | src/mail_control/modules/mail/gmail.py:351-417 | at most five calls, one refresh and 90 seconds of sleep; no call before the deadline or the backoff of the one before it; a transient error only after four attempts or for a deadline too far away, with that deadline; a 401 only without a refresh or after one |
| Retry.GraphRequest | src/mail_control/modules/mail/microsoft.py:381-455 | the same for Graph, whose refresh and second call share an attempt |
| MimeWalk.Parts | src/mail_control/modules/mail/content_service.py:52-62 | the stack walk returns the recursive preorder, and refuses exactly the trees deeper than 30 or with more than 2000 parts |
| MimeWalk.PopKeepsOrder | src/mail_control/modules/mail/content_service.py:55-61 | one turn of the loop visits the next part of the preorder |
| MimeWalk.PopKeepsFit | src/mail_control/modules/mail/content_service.py:56-58 | a part too deep stays ahead of the walk until it is met |
| MimeWalk.KeysAreDistinct | src/mail_control/modules/mail/content_service.py:85-103 | no two listed attachments share a key |
| MimeWalk.GmailAttachments | src/mail_control/modules/mail/content_service.py:85-103 | lists exactly the attachments of the preorder, or refuses exactly trees beyond a limit |
| MimeWalk.RefillKeepsPositions | src/mail_control/modules/mail/content_service.py:135-161 | filling bodies moves no part and changes nothing but data |
| MimeWalk.DownloadSelectsTheListedPart | src/mail_control/modules/mail/content_service.py:238-246 | a listed key selects, from the stored message, the attachment the listing described |
| MimeWalk.FetchedExactly | src/mail_control/modules/mail/content_service.py:139-152 | exactly the text bodies without data are fetched, by their attachment ids |
| MimeWalk.Payload | src/mail_control/modules/mail/content_service.py:135-161 | succeeds exactly when the tree is within its limits and every body is announced, answered and decoded within what is left of 2 MiB; then exactly the missing bodies are filled in |
| Keyset.WalkIsSorted | src/mail_control/modules/dashboard/repository.py:169-183 | following pages of any limit yields the sorted relation |
| Keyset.DeliveredInOrder | src/mail_control/modules/dashboard/repository.py:169-183 | whatever changes between requests, sort keys come in strict order |
| Keyset.ConcurrentWalkIsExact | src/mail_control/modules/dashboard/repository.py:169-208 | a sort key that is there at every request is delivered exactly once, and no sort key twice |
| Keyset.PagesAreFull | src/mail_control/modules/dashboard/repository.py:177-183 | every page but the last holds exactly the limit |
| Keyset.WalkEnds | src/mail_control/modules/dashboard/repository.py:206-208 | a client that follows the cursors comes to a last page |
| Cursor.Base64RoundTrip | src/mail_control/modules/dashboard/cursor.py:14 | base64url decodes to the bytes it encoded |
| Cursor.PaddingRestores | src/mail_control/modules/dashboard/cursor.py:19 | the padding computed from the length is the padding that was stripped |
| Cursor.JsonRoundTrip | src/mail_control/modules/dashboard/cursor.py:10-13 | the two fields are read back from the JSON text |
| Cursor.TimeRoundTrip | src/mail_control/modules/dashboard/cursor.py:21 | timestamps are read back with and without microseconds |
| Cursor.CursorRoundTrip | src/mail_control/modules/dashboard/cursor.py:9-23 | every cursor handed out reads back as the position it was made from, and none is empty |
| Paging.PagesAreTheRelation | src/mail_control/modules/dashboard/repository.py:164-210 | with text cursors too, the pages of an unchanging relation are that relation in order |
| Paging.ConcurrentPagesAreExact | src/mail_control/api/dashboard.py:289-319 | and under concurrent changes no sort key is shown twice and every one that stayed is shown, ascending or descending |
| Paging.IdsAreShownOnce | src/mail_control/api/dashboard.py:289-319 | over ids: a row whose sort key stays is shown exactly once; a row is shown twice only if it moved down the list between two requests |
| Paging.CursorsAreAccepted | src/mail_control/modules/dashboard/repository.py:169-176 | a cursor handed out is accepted by the next request |
| Paging.TextCursorsAreKeys | src/mail_control/modules/dashboard/repository.py:206-208 | text cursors lead through the pages of the keys they stand for |
| Counters.RollUp | src/mail_control/modules/dashboard/repository.py:213-226 | a sum over the groups equals counting rows one by one |
| Counters.MessageCounts | src/mail_control/modules/dashboard/repository.py:212-243 | every counter is the number of rows it stands for |
| Counters.CountersAddUp | src/mail_control/modules/dashboard/repository.py:227-243 | folder counters add up to the total, and the inbox is its unanalysed messages plus its categories |
| Counters.KeysAreStable | src/mail_control/modules/dashboard/filters.py:26-28 | a category key is its own key |
| Counters.CategoriesAreWellFormed | src/mail_control/modules/dashboard/filters.py:15-23 | groups list their own key and share no value |
| Counters.FilterMatchesCounter | src/mail_control/modules/dashboard/filters.py:111-118 | the list filter returns exactly the rows counted under its key, if and only if it is not empty and does not ask for unanalysed messages |
| Counters.CounterIsListLength | src/mail_control/modules/dashboard/repository.py:238-240 | then the counter is the length of the list |
| Backfill.MessageTable.BackfillBatch | src/mail_control/scripts/backfill_mail_state.py:50-80 | rewrites exactly the selected rows when applied and none otherwise, counts what differed, and names the last row; refuses limits outside 1 to 1000 |
| Backfill.ChainVisitsEachOnce | src/mail_control/scripts/backfill_mail_state.py:57-77 | batches chained by next_after_id visit every row once, in order, whatever the limit |
| Backfill.FullPassRestatesAll | src/mail_control/scripts/backfill_mail_state.py:50-80 | a full pass derives the state of every row again |
| Backfill.SecondPassChangesNothing | src/mail_control/scripts/backfill_mail_state.py:69-76 | a second full pass changes nothing and reports so |
| Backfill.ChoicesSurvive | src/mail_control/scripts/backfill_mail_state.py:42-47 | through any synchronizations, deletions, PATCHes and batches, with folder maps that change, a field shows the user's choice until the user chooses again, else what was last read from what the provider last sent |
| Backfill.ChoiceIsShown | src/mail_control/api/dashboard.py:203-225 | an accepted choice is what a reader sees at once |

## Left out

- HTTP, Redis, RabbitMQ, PostgreSQL, SQLAlchemy, OAuth web flows, encryption, JWT, SMTP, Telegram and AI calls: only their results or atomic effects appear.
- IMAP synchronization: it has no deletions or flags and skips a message whose fetch fails while advancing its cursor, so no coverage holds.
- The React user interface, deployment, settings, health checks and backup mirroring: plumbing.
- `reanalyze_payments.py`: it rewrites alerts without reconciling incidents.
- Full-text search, `shlex` tokenising, HTML conversion, image proxying and the marker texts of the analysis: uninterpreted conditions.
- Message fields that nothing proved depends on (sender, recipients, subject, snippet, dates of stored rows, provider_folder_id of the backfill) are part of the payload or not modelled.
- queue_analysis inside a synchronization: it writes only the outbox, which is modelled by itself in `Outbox`.
- AuthState.AccountSession.OthersCommit: accounts are never connected by app password; that clears the history cursor of the row, and the IMAP uid stored there later would be kept by a Google reconnection.
- AuthState.AccountSession.UpdateAccountIfCurrent: the database conflict of two writers on one row is modelled as waiting, not as a serialization failure.
- GmailClient.GmailClient.Request: the retry loop behind it is `Retry.GmailRequest`; here its outcome is any failure or none, at any time.
- GmailSync.GmailSyncService.RefreshAll: stands for three loops of the source over sets of ids.
- GmailSync.AnyLife: history records have no kind but the four the source reads, and the account was never connected by app password.
- MicrosoftSync.MicrosoftSyncService.AllFolders: a folder that appears or disappears during one synchronization is not modelled.
- MicrosoftSync.MicrosoftSyncService.ListLevel: collects a level before queueing its parents, where the source queues page by page; only a failure in between could tell the difference, and it discards the result.
- RefreshProtocol.RunKeepsInv: a lock lease that expires during an exchange is not modelled.
- Incidents.OrderDoesNotMatter: on equal time and status the stored analysis id depends on the order, so it is not claimed.
- Incidents.MigrationPicksTheSameState: the events are taken as given; the migration derives them from stored types alone, without the marker texts.
- AnalysisService.AnalysisRepository.UpsertIncident: opened_at, resolved_at and resolution_reason repeat status, time and type and are not stored separately.
- Outbox.OutboxRuns: a worker that dies while an event is PROCESSING leaves it so for good, as in the source.
- Retry.GraphRequest: the refusal of continuations outside the provider's origin, replies over 30 MiB and time values that overflow are not modelled.
- MimeWalk.Payload: works on values, so that the in-place filling of a deep copy becomes a new tree; base64 decoding enters only through the decoded length.
- Cursor.CursorRoundTrip: texts that no encoder produced (other JSON layouts, characters outside the alphabet, other time zones) are refused by the model, while Python may read some of them.
- Counters.FilterMatchesCounter: case folding is that of ASCII letters.
- Backfill.MessageTable.BackfillBatch: row locks and the provider folder id are not modelled; the rows are those its query returned.
