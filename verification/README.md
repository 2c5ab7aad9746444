# Nextcloud ChatGPT bridge: a verified model

The bridge lets a chat assistant work in one folder of a user's Nextcloud. This
project models the parts of it where state, concurrency or arithmetic decide
whether it is right, and proves what those parts promise.
`dafny verify dfyconfig.toml` checks all of it.

**Connections and credentials.** Linking an account starts a login flow with a
poll token; a successful poll turns it into a connection with an app password.
Secrets and metadata are written in separate commits, so every call
compensates by hand, and a maintenance job deletes expired flows and old
unreferenced secrets beside it. `Lifecycle` is a step machine: one step per
store statement or commit, one per clock reading or remote answer, with
crashes between any two. `LifecycleShape` and `GcSafety` prove its invariants,
`LifecycleFindings` shows where the promises end, `Tenancy` erases other
tenants from a run, `Compensation`, `Undo` and `Managing` follow single calls to
their end, `FlowRows` and `FlowGrants` count what all polls of one flow store,
`RowRuns` follows one row through a run. `Answers` says from the tables, the
clock and the remote alone which answer each call gives, `Listings` what the
calls do to a tenant's listing, `Revocations` what must have happened before a
disconnect reports a revocation. `Roots` and `StoredRoots` say which
roots a record accepts and what the settings make of a stored one.
`Stores`, `Service` and `Maintenance` are the classes and methods themselves,
updating tables in place, each proved to take exactly those steps.
`StoreRefinement` relates the database tables to the in-memory dictionaries,
`Vault` the encrypted table to a plain map.

**Rate limiting.** `Limiter` is the ordered table of fixed windows with
all-or-nothing admission and eviction; `LimiterRuns` compares it with a
limiter that never forgets, `LimiterRate` counts admissions.

**Workspace paths and search.** `Paths`, `Utf8`, `Percent` and `WebDav` cover
normalisation, percent-encoding (section 2.1 of RFC 3986) and the way back from
a response; `Targets` is the entry that a request for a path addresses,
`Folders` mkdir-p on a remote tree, `Search` the capped breadth-first walk.

**Household.** `Profiles` holds the stores and the service that configures a
household, `ProfileRuns` its statements interleaved, `ProfileFindings` what the
constraints of the table are for, `ProfileAnswers` which answer each input gets.
`Reports` is the write-once upload, `InvoicePaths` where files are read and
written, `Pages` the bounded text extraction, `Amounts` the parsing of amounts.
`Capabilities` is the worklist over the server's capability document.

## What the proofs found

The model keeps the code as it is. Where a promise fails, a lemma gives the
failing run or the exact condition under which the promise holds.

- A root update that read its connection before a disconnect deleted it writes
  the row back without a credential: `LifecycleFindings.UpdateRevivesDisconnected`.
- The grace period of the cleanup is needed by every poll: one that pauses
  longer between its two commits ends with a connection whose secret is gone,
  `LifecycleFindings.LateCommitLosesSecret`; within it that never happens,
  `GcSafety.SecretsOutliveCollection`.
- After a disconnect has reported success its row is present if and only if an
  update of the same connection has committed since, and no disconnect after
  that: `LifecycleFindings.PresentIffRewritten`. Without an update in flight at
  the deletion it stays away for good: `RowRuns.QuietDropIsFinal`.
- docs/AUTH_ARCHITECTURE.md:61 says that a disconnect always removes the local
  credential. The code reads the row and the secret before its `try`; it
  removes both if and only if these two reads and the two deletions succeed and
  the row can be read, `Undo.DisconnectRemovesIffNothingRaises`.
- The records hold roots of at most 4096 characters, and nothing else bounds a
  root. Beginning a login builds its record after it has stored the poll token
  and outside the `try`: a longer root is accepted, raises there, and leaves the
  token behind, `Undo.LongRootLeavesToken`. A begin is all or nothing if and only
  if the token is not left that way or by a clean-up that raises,
  `Undo.BeginIsAllOrNothing`.
- A root update copies its record without validating it, so it stores a longer
  root and reports success (`Managing.LongUpdateSpoils`); from then on every
  read of the row raises. A stored connection cannot be read if and only if the
  last write of its row was such an update, `RowRuns.UnreadableIffSpoilt`. Unless
  an update or a disconnect of it has already read the row, that is for good: no
  run changes or removes the row, and nothing answers with a listing of the
  tenant, an update or a disconnect, `RowRuns.UnreadableIsForGood`. The
  in-memory store has no such rows: `StoreRefinement.DatabaseRefinesMemory`.
- The settings of a connection normalise its root once more. They hold the
  stored root if and only if it does not end in whitespace,
  `StoredRoots.SettingsHoldTheRoot`; otherwise they hold another folder
  (`StoredRoots.SettingsCanHoldASibling`), the parent
  (`StoredRoots.SettingsCanHoldTheParent`) or are refused
  (`StoredRoots.SettingsCanRefuse`, `StoredRoots.SettingsRefuse`), although
  docs/AUTH_ARCHITECTURE.md:69 says that URLs are built below the configured root.
- docs/AUTH_ARCHITECTURE.md:61 says that a flow is consumed once the remote has
  granted, whether persistence succeeds or fails. Granted means here that the
  login client has accepted the credentials; an answer that it refuses leaves
  the flow, although the remote has issued an app password. A granted flow is
  consumed if and only if the two deletions of the `finally` succeed,
  `FlowRows.GrantConsumesFlow`. Where they do not, the flow stands and can be
  granted again: two polls can store two connections and both answer with an
  error, `FlowRows.TwoGrantsStoreTwoRows`. Polls one after the other store at
  most one row exactly as long as that does not happen, `FlowRows.OneRowPerFlow`,
  and in every interleaving never more rows than there were grants,
  `FlowGrants.RowsNeverExceedGrants`.
- The cleanup report counts the keys of expired poll tokens. That is the number
  of rows deleted if and only if every expired flow still has its token,
  `Maintenance.PollCountIsExact`; the subtraction of those keys from the
  orphans never removes anything (`Maintenance.OrphansAre`).
- The base path is compared percent-encoded with a decoded href, so under a
  user name or workspace root that needs an escape every entry of every
  listing is skipped: `WebDav.ListingRoundTrip`, `WebDav.ListingComesBack`.
  There creating a folder fails after its first missing prefix, every time
  (`Folders.EnsureFolderIsExact`), and no report is ever saved
  (`Reports.ExactlyOneSaves`).
- Edge whitespace is stripped again for every request, so creating a folder
  works as described exactly for paths without whitespace at the ends of their
  prefixes, under a base without escapes: `Folders.OnlyStablePathsWork` and
  `Folders.StableMeansTrimmed`. A configured folder may start with a blank that
  every request loses, `Targets.FolderCanStartWithBlank`: then a report is not
  where its folder is (`InvoicePaths.ReportStaysInFolder`), and two of the three
  distinct folders may be one entry, `Profiles.DistinctFoldersShareAnEntry`. It
  may end with one, `Targets.FolderCanEndWithBlank`: then an accepted invoice
  does not lie below the inbox that is listed (`InvoicePaths.InvoiceLiesBelowInbox`,
  and `InvoicePaths.InvoiceBesideItsInbox` for one).
- `normalize_root_path` refuses the account root `/`, but accepts two slashes
  with nothing kept behind them: `Paths.TwoSlashesAreAccepted`, exactly for the
  texts of `Paths.RootWithoutNames`. Such a root does not reach the account's
  folder: in the URL it is the segment `%2F%2F` (`WebDav.DoubleSlashBase`), and
  no answer under it is understood (`WebDav.DoubleSlashUnread`).
- A rate-limited key gets up to `2 * limit - 1` calls in a stretch as long as
  one window, and no more: `LimiterRate.SlidingBound`,
  `LimiterRate.SlidingBoundIsMet`. Evicting a window that still runs shows:
  `LimiterRuns.ExactWithoutLiveEviction`.
- The truncation flag of a PDF is raised on a complete text if and only if it
  has 199999 characters, or 200000 and no page ends after 199999:
  `Pages.FlaggedButComplete`.
- A failed call may have stored its report, exactly if its upload was carried
  out and the answer lost, or the step after the upload failed:
  `Reports.FailedButStored`.
- Two reconfigurations of one profile at the same time can leave it with two
  equal folders, although each was checked: the update writes only the columns
  that it changes. `ProfileFindings.UpdatesCanCross` is such a run from every
  state with a profile, and `ProfileRuns.DistinctUnlessCrossed` says exactly
  when folders stay distinct.

## Model

| member | source | states |
|---|---|---|
| LifecycleShape.RunShape | src/nextcloud_chatgpt_bridge/connections/service.py:49-213 | in every run, whatever the interleaving and the crashes, each secret reference is committed into at most one row of one tenant, ids are keys of their rows, no reference is both a poll token and a credential, and each call's locals agree with what was committed |
| GcSafety.SecretsOutliveCollection | src/nextcloud_chatgpt_bridge/maintenance.py:40-92 | in every state of every run in which rows are committed within the grace period, a connection's secret is readable by its tenant and holds the app password the remote granted, if and only if no disconnect of it has deleted the secret |
| GcSafety.PollTokensOutliveCollection | src/nextcloud_chatgpt_bridge/connections/service.py:59-74 | the same for the poll token of a login flow: present until a poll has dropped it |
| GcSafety.SeveredMeansDisconnected | src/nextcloud_chatgpt_bridge/connections/service.py:202-204 | the history used above records exactly the disconnect statements of the run that deleted the secret of a connection |
| LifecycleFindings.UpdateRevivesDisconnected | src/nextcloud_chatgpt_bridge/connections/service.py:155-157 | from every reachable state with a readable stored connection a root update racing with a disconnect leads to a connection without a secret after the disconnect has reported success |
| LifecycleFindings.PresentIffRewritten | src/nextcloud_chatgpt_bridge/connections/service.py:155-157 | in every run, after a disconnect has deleted the row of a connection the row is present if and only if an update of it has committed since and no disconnect after that update |
| RowRuns.QuietDropIsFinal | src/nextcloud_chatgpt_bridge/connections/service.py:148-158 | if no update of the connection is between its read and its write when a disconnect deletes the row, the row is absent in every state of every run after that |
| RowRuns.UnreadableIffSpoilt | src/nextcloud_chatgpt_bridge/connections/service.py:155-157 | over every run, reading a stored connection raises if and only if the last write of its row was an update with a root that its record refuses |
| RowRuns.UpdateCanSpoil | src/nextcloud_chatgpt_bridge/connections/service.py:148-158 | from every reachable state one update that reports success makes any readable row unreadable, with any root that the record refuses |
| RowRuns.UnreadableIsForGood | src/nextcloud_chatgpt_bridge/persistence.py:268-323 | once a row cannot be read and no update or disconnect of it is past its read, the row stays as it is in every run and no call answers any more with a listing of its tenant, an update or a disconnect of it |
| LifecycleFindings.LateCommitLosesSecret | src/nextcloud_chatgpt_bridge/maintenance.py:73-92 | for every grace period, a poll that commits its connection after it can lose the secret to a cleanup |
| Tenancy.TenantsDoNotInterfere | src/nextcloud_chatgpt_bridge/connections/service.py:49-250 | erasing all other tenants' calls from any run, cleanups kept, leaves a legal run with the same flows, connections, secrets, running calls and outcomes of a tenant |
| Tenancy.SameEventsSameView | src/nextcloud_chatgpt_bridge/connections/store.py:40-91 | two runs that agree on one tenant's events and the cleanups give that tenant the same tables and results |
| Compensation.PollIsAllOrNothing | src/nextcloud_chatgpt_bridge/connections/service.py:88-140 | whichever reads and writes fail, a poll whose deletions succeed changes nothing if the login client has accepted no grant (it is still pending only if the remote said so, and linking has failed only if the remote refused; an expired or unusable flow is consumed; one that cannot be read is left), and after a grant consumes the flow and its token, adding exactly one connection with the flow's root and the granted app password, or nothing |
| Compensation.ConnectedConsumesFlow | src/nextcloud_chatgpt_bridge/connections/service.py:137-140 | whatever raises, a poll that answers with a connection has removed its flow |
| Compensation.FlowYieldsOnce | src/nextcloud_chatgpt_bridge/connections/service.py:82-140 | over every sequential run of service calls and cleanups, whatever raises, at most one poll of a flow answers with a connection |
| FlowRows.GrantConsumesFlow | src/nextcloud_chatgpt_bridge/connections/service.py:114-140 | once the login client has accepted credentials, a finished poll has removed its flow and its token if and only if both deletions of `_delete_pending` succeed; otherwise the flow stands and the poll has raised |
| FlowRows.PollAdds | src/nextcloud_chatgpt_bridge/connections/service.py:82-140 | a poll stores exactly one connection row if its guards pass, up to the commit of the row, and none otherwise, whatever becomes of it afterwards |
| FlowRows.OneRowPerFlow | src/nextcloud_chatgpt_bridge/connections/service.py:82-140 | over every sequential run, crashes included, the polls of a flow store at most one connection row if and only if no granted poll that stores a row follows one that stored a row and left the token |
| FlowRows.OneRowIfDroppedOrGrantedOnce | src/nextcloud_chatgpt_bridge/connections/service.py:137-140 | hence at most one row if the deletions succeed or the remote grants once |
| FlowRows.TwoGrantsStoreTwoRows | src/nextcloud_chatgpt_bridge/connections/service.py:211-213 | from any tables with a live flow, two granted polls whose first deletion raises store two connections with its root while both answer with an error |
| FlowGrants.RowsNeverExceedGrants | src/nextcloud_chatgpt_bridge/connections/service.py:109-136 | over every run of the step machine, whatever is interleaved, raises or crashes, the polls of a flow commit at most as many connection rows as the login client has accepted grants |
| FlowGrants.StoresNewRow | src/nextcloud_chatgpt_bridge/connections/service.py:116-127 | each of these commits adds exactly one row, under an id that was not there |
| Undo.BeginIsAllOrNothing | src/nextcloud_chatgpt_bridge/connections/service.py:49-80 | a finished begin adds one flow with the root, challenge and expiry it was started with and its poll token for the tenant, and answers with them, or fails and changes nothing, if and only if not both its token was stored and either its record refused the root or the flow was not stored and the clean-up raised; in that case it has failed and exactly the token is left |
| Undo.CalmBeginIsAllOrNothing | src/nextcloud_chatgpt_bridge/connections/service.py:59-74 | if no clean-up raises, it is all or nothing if and only if the record accepts the root or the first write has raised |
| Undo.LongRootLeavesToken | src/nextcloud_chatgpt_bridge/connections/service.py:57-69 | a root of one slash and 4096 letters is accepted, and every begin with it that stores its token fails and leaves exactly the token |
| Undo.DisconnectRemovesIffNothingRaises | src/nextcloud_chatgpt_bridge/connections/service.py:187-204 | whatever becomes of the remote revocation, a disconnect removes the connection and its secret if and only if the row can be read and the two reads before its `try` and the two deletions in its `finally` succeed; otherwise the connection stays and at most its secret goes |
| Undo.DisconnectUndoesPoll | src/nextcloud_chatgpt_bridge/connections/service.py:180-209 | disconnecting what a poll has connected leaves the tables as if the poll had only consumed its flow |
| Undo.LinkThenUnlinkRestores | src/nextcloud_chatgpt_bridge/connections/service.py:49-213 | begin, successful poll and disconnect together leave every table exactly as it was |
| Managing.UpdateChangesOnlyTheRoot | src/nextcloud_chatgpt_bridge/connections/service.py:148-158 | a root update either changes the root of the owned connection and nothing else in any table, or fails and changes nothing; after a success the row can be read again if and only if the record accepts the new root |
| Managing.LongUpdateSpoils | src/nextcloud_chatgpt_bridge/connections/service.py:155-158 | a root of one slash and 4096 letters is accepted, and every update with it that reports success leaves a row that cannot be read |
| Managing.ResolveAfterPoll | src/nextcloud_chatgpt_bridge/connections/service.py:160-178 | for a freshly polled connection the settings are what normalising its flow's root once more gives and an app password granted to that poll, or are refused if normalising refuses the root |
| Managing.ResolveKeepsTheRoot | src/nextcloud_chatgpt_bridge/config.py:60-63 | so they hold the flow's root if and only if it does not end in whitespace |
| StoredRoots.RootAgain | src/nextcloud_chatgpt_bridge/config.py:23-34 | what normalising makes of an accepted root, in closed form: the last name without its trailing whitespace, dropped if nothing or a dot is left, refused if `..` is left or the root is |
| StoredRoots.SettingsHoldTheRoot | src/nextcloud_chatgpt_bridge/config.py:60-63 | the settings hold an accepted root if and only if it does not end in whitespace |
| StoredRoots.SettingsRefuse | src/nextcloud_chatgpt_bridge/config.py:60-63 | they are refused if and only if its last name is `..` before whitespace, or its only name is nothing or a dot before whitespace |
| StoredRoots.SettingsHold | src/nextcloud_chatgpt_bridge/config.py:60-63 | otherwise they hold the root without that whitespace, or its parent if the name was nothing or a dot before whitespace |
| StoredRoots.DottedRootAccepted | src/nextcloud_chatgpt_bridge/config.py:23-34 | every root of clean names is accepted as it stands with a slash and a dot behind it, whatever it ends in |
| StoredRoots.SettingsCanHoldASibling | src/nextcloud_chatgpt_bridge/config.py:23-34 | `/a /.` is stored as `/a ` and read by the settings as `/a` |
| StoredRoots.SettingsCanHoldTheParent | src/nextcloud_chatgpt_bridge/config.py:23-34 | `/a/ /.` is stored as `/a/ ` and read by the settings as `/a` |
| StoredRoots.SettingsCanRefuse | src/nextcloud_chatgpt_bridge/config.py:23-34 | `/ /.` is stored as `/ `, which the settings refuse |
| StoredRoots.FitsIfShort | src/nextcloud_chatgpt_bridge/connections/models.py:38 | the record accepts an accepted root if and only if it has at most 4096 characters |
| Answers.PollAnswers | src/nextcloud_chatgpt_bridge/connections/service.py:82-140 | over every undisturbed poll, from the tables, the clock and what each step hears: not found, unreadable, expired, without its token, still pending, refused and connected each if and only if its own guard holds, the first two deletions after an expired or unusable flow included; a connection is answered with the granted server and login name and the flow's root; anything else is a storage failure |
| Answers.DisconnectAnswers | src/nextcloud_chatgpt_bridge/connections/service.py:180-209 | a disconnect that succeeds answers its connection and whether the remote has revoked: that flag is raised if and only if the secret was found before the `try`, row and secret were read again, the settings accept the root and the remote revoked; the other answers if and only if their guards hold |
| Revocations.RevokedMeansAsked | src/nextcloud_chatgpt_bridge/connections/service.py:191-209 | in every interleaving a disconnect answers that the app password was revoked only after it has read its row again, then its secret, with settings that accept the root, and the remote has revoked |
| Revocations.RevocationIsReported | src/nextcloud_chatgpt_bridge/connections/service.py:196-209 | once the remote has revoked, a disconnect that does not crash answers so or that the storage failed |
| Answers.UpdateAnswers | src/nextcloud_chatgpt_bridge/connections/service.py:148-158 | the same for a root update, with every field of the answer |
| Answers.SettingsAnswers | src/nextcloud_chatgpt_bridge/connections/service.py:160-178 | the same for the settings: the normalised root and the stored password, or which error |
| Answers.BeginAnswers | src/nextcloud_chatgpt_bridge/connections/service.py:49-80 | the same for a begin |
| Answers.ListAnswers | src/nextcloud_chatgpt_bridge/connections/service.py:142-146 | a listing shows id, server, login name, root and time of exactly the tenant's connections, or raises if and only if one of them cannot be read |
| Listings.PollExtendsListing | src/nextcloud_chatgpt_bridge/connections/service.py:116-130 | a poll that answers with a connection adds exactly this answer to the tenant's listing |
| Listings.DisconnectShrinksListing | src/nextcloud_chatgpt_bridge/connections/service.py:202-209 | a disconnect that succeeds takes exactly its connection out of the listing |
| Listings.UpdateRewritesListing | src/nextcloud_chatgpt_bridge/connections/service.py:155-158 | an update that succeeds replaces exactly its connection in the listing by its answer |
| Service.ConnectionService.BeginConnection | src/nextcloud_chatgpt_bridge/connections/service.py:59-80 | the method on the two stores takes exactly the steps of the step machine and returns its outcome, also when the record refuses the root between the two writes |
| Service.ConnectionService.PollConnection | src/nextcloud_chatgpt_bridge/connections/service.py:82-140 | the same for a poll, with its compensation and its `finally` |
| Service.ConnectionService.StoreConnection | src/nextcloud_chatgpt_bridge/connections/service.py:115-136 | the writes of a poll and their compensation |
| Service.ConnectionService.DeletePending | src/nextcloud_chatgpt_bridge/connections/service.py:211-213 | the token is deleted, then the flow; a raise in between leaves the flow |
| Service.ConnectionService.UpdateRootPath | src/nextcloud_chatgpt_bridge/connections/service.py:148-158 | reads the owned row, then upserts it with the new root |
| Service.ConnectionService.ListConnections | src/nextcloud_chatgpt_bridge/connections/service.py:142-146 | lists the readable rows of the tenant, or raises if one of them cannot be read |
| Service.ConnectionService.ResolveSettings | src/nextcloud_chatgpt_bridge/connections/service.py:160-178 | reads the owned row, then its secret, and builds the settings, whose validator normalises the root or refuses it |
| Service.ConnectionService.TryRevoke | src/nextcloud_chatgpt_bridge/connections/service.py:191-201 | the revocation attempt reads only and never fails the disconnect |
| Service.ConnectionService.Disconnect | src/nextcloud_chatgpt_bridge/connections/service.py:180-209 | the steps of a disconnect, its `finally` included |
| Maintenance.CleanupHostedStorage | src/nextcloud_chatgpt_bridge/maintenance.py:40-97 | on both stores, statement by statement, the job leaves exactly the rows it keeps and reports the counts |
| Maintenance.CommitIsExact | src/nextcloud_chatgpt_bridge/maintenance.py:43-92 | kept are precisely the flows not yet expired, all connections, and the secrets that are no expired flow's token and are referenced by a survivor or younger than the cutoff |
| Maintenance.OrphansAre | src/nextcloud_chatgpt_bridge/maintenance.py:61-84 | the orphans in words; the set subtraction is redundant |
| Maintenance.JobIsExact | src/nextcloud_chatgpt_bridge/maintenance.py:93-97 | flows and secrets before equal those after plus the reported flows, orphans and present expired tokens |
| Maintenance.PollCountIsExact | src/nextcloud_chatgpt_bridge/maintenance.py:43-59 | the reported number of poll secrets is that of the rows deleted if and only if every expired flow still has its token |
| Maintenance.SweepCommits | src/nextcloud_chatgpt_bridge/maintenance.py:43-92 | an undisturbed cleanup thread of the step machine commits what the job commits |
| Maintenance.SecondRunIsIdle | src/nextcloud_chatgpt_bridge/maintenance.py:43-97 | a second cleanup at the same time changes nothing and reports zeros |
| Stores.DatabaseConnectionStore.PutPending | src/nextcloud_chatgpt_bridge/persistence.py:213-229 | upsert by flow id that raises when another tenant owns the id |
| Stores.DatabaseConnectionStore.PutConnection | src/nextcloud_chatgpt_bridge/persistence.py:251-266 | upsert by connection id that raises when another tenant owns the id |
| Stores.DatabaseConnectionStore.DeleteConnection | src/nextcloud_chatgpt_bridge/persistence.py:287-295 | deletes the row only for its own tenant |
| StoreRefinement.DatabaseRefinesMemory | src/nextcloud_chatgpt_bridge/persistence.py:213-295 | from empty stores, the id-keyed tables with tenant predicates give the answers of the (tenant, id)-keyed dictionaries if and only if no put presents an id that another tenant holds and no read meets a row whose record refuses its root |
| StoreRefinement.StepsAgree | src/nextcloud_chatgpt_bridge/persistence.py:298-323 | the same for one operation, and unless a put trespasses the stores go on holding the same rows |
| Vault.RunsRefine | src/nextcloud_chatgpt_bridge/persistence.py:332-405 | over every run of puts, gets, deletes and rotations that keep the keys in use, every answer is that of a plain map from (tenant, reference), for secrets of 1 to 16384 bytes |
| Vault.RotationIsExact | src/nextcloud_chatgpt_bridge/persistence.py:172-186 | a rotation loses no stored secret if and only if the new keyring has every key in use under the same id with the same bytes |
| Vault.AadIsInjective | src/nextcloud_chatgpt_bridge/persistence.py:397-405 | the associated data determines tenant, reference and key id when tenant and key id have no bar |
| Vault.AadNamesTheSecret | src/nextcloud_chatgpt_bridge/identity.py:29-32 | which always holds: for the tenants that identities have and the key ids that keyrings allow, equal associated data means equal identity digest, reference and key id |
| Vault.AlteredRowNeverOpens | src/nextcloud_chatgpt_bridge/persistence.py:358-384 | a sealed box in any row opens if and only if tenant, reference, key id and nonce are those it was sealed with; bytes that nobody sealed never open |
| Vault.EncryptedDatabaseCredentialStore.Put | src/nextcloud_chatgpt_bridge/persistence.py:332-356 | the whole new table and every refusal: size, non-ASCII names, taken reference |
| Vault.EncryptedDatabaseCredentialStore.Get | src/nextcloud_chatgpt_bridge/persistence.py:358-384 | missing, unavailable key, bad metadata, failed decryption or the secret, in that order |
| Vault.GetAnswers | src/nextcloud_chatgpt_bridge/persistence.py:358-384 | a stored secret is returned if and only if its row holds the box that seals it under the key of the row's id, with a nonce of 12 bytes and the version, tenant, reference and key id joined by bars; a missing row, an unavailable key and a bad nonce each have their own answer |
| Vault.PutAnswers | src/nextcloud_chatgpt_bridge/persistence.py:332-356 | secrets of 1 to 16384 bytes are sealed so under the active key, in a row of the tenant, unless a name is not ASCII or the reference is taken; nothing is written otherwise |
| Vault.KeyringIs | src/nextcloud_chatgpt_bridge/persistence.py:172-186 | a keyring holds its active key and at most 16 keys, each of 32 bytes under an id of 1 to 64 letters, digits, dots, underscores and hyphens |
| Limiter.FixedWindowRateLimiter.Consume | src/nextcloud_chatgpt_bridge/public_app.py:136-154 | the loops over limits, windows and evictions compute the table and the answer of the specification |
| Limiter.CallIs | src/nextcloud_chatgpt_bridge/public_app.py:139-154 | a refused call changes nothing; an admitted one counts every key of the call once, leaves every other kept window alone and keeps the keys moved to the end last |
| Limiter.BlockedIs | src/nextcloud_chatgpt_bridge/public_app.py:140-146 | a call is refused exactly if one of its keys has used up its limit in its current window; the key named is the first of these, all before it have room |
| Limiter.WaitIsLeast | src/nextcloud_chatgpt_bridge/public_app.py:145 | the wait is the least positive number of whole seconds after which the window has expired |
| Limiter.RefusedByFirst | src/nextcloud_chatgpt_bridge/public_app.py:140-146 | the wait of a refused call is that of its first key without room |
| LimiterRuns.TableHoldsTheLastKeys | src/nextcloud_chatgpt_bridge/public_app.py:148-153 | after every run the table holds at most `max_keys` keys, namely the distinct keys admitted last, in order of their last admission |
| LimiterRuns.ForgettingUnnoticed | src/nextcloud_chatgpt_bridge/public_app.py:136-154 | with a non-decreasing clock and only expired windows evicted, every answer is that of a limiter that never forgets |
| LimiterRuns.ExactWithoutLiveEviction | src/nextcloud_chatgpt_bridge/public_app.py:152-153 | no call at any point of a run tells the two limiters apart if and only if no running window was evicted |
| LimiterRate.SlidingBound | src/nextcloud_chatgpt_bridge/public_app.py:139-151 | a key with a constant limit whose running window is never evicted is admitted at most `2 * limit - 1` times in any half-open stretch as long as a window, whatever happens to other keys |
| LimiterRate.SlidingBoundIsMet | src/nextcloud_chatgpt_bridge/public_app.py:139-154 | for every limit, window length and table size some run that evicts nothing meets that bound |
| LimiterRate.LogIsWindowed | src/nextcloud_chatgpt_bridge/public_app.py:139-154 | for such a key each window admits at most `limit` calls, windows never overlap and each is opened by an admission |
| LimiterRate.NothingWithoutLimit | src/nextcloud_chatgpt_bridge/public_app.py:144-145 | a key whose limit is not positive is never admitted, on any clock and with any evictions |
| Paths.NormalizeRelativeIsContained | src/nextcloud_chatgpt_bridge/providers/webdav.py:68-79 | every accepted path is a join of names that are not empty, `.` or `..` and hold no slash |
| Paths.NormalizeRelativePathIsContained | src/nextcloud_chatgpt_bridge/config.py:9-20 | the same for configured paths, which in addition are never the root |
| Paths.NormalizeRootIsContained | src/nextcloud_chatgpt_bridge/config.py:23-34 | an accepted root is one or two slashes followed by such names, and not the single slash alone |
| Paths.RootWithoutNames | src/nextcloud_chatgpt_bridge/config.py:29-34 | an accepted root has no names if and only if the text has exactly two leading slashes and otherwise only empty and `.` segments; it is normalised to `//` |
| Paths.StripIs | src/nextcloud_chatgpt_bridge/providers/webdav.py:70 | stripping takes whitespace, of the 29 code points named, off both ends of a text, and leaves none there |
| Percent.QuoteRoundTrip | src/nextcloud_chatgpt_bridge/providers/webdav.py:63-66 | decoding the percent-encoding of any text gives the text back |
| Percent.QuoteKeepsIff | src/nextcloud_chatgpt_bridge/providers/webdav.py:63-66 | percent-encoding leaves a text alone if and only if it consists of letters, digits, hyphens, dots, underscores and tildes |
| Utf8.DecodesIff | src/nextcloud_chatgpt_bridge/providers/webdav.py:212-216 | bytes are decoded as a text if and only if they are its UTF-8 encoding |
| Percent.EscapeDecodes | src/nextcloud_chatgpt_bridge/providers/webdav.py:216 | an escape with digits in either case stands for its byte, whatever follows |
| WebDav.UrlIsContained | src/nextcloud_chatgpt_bridge/providers/webdav.py:62-83 | the URL of an accepted path is the base followed by slash-free, non-empty, dot-free segments that decode to the normalised names in order |
| WebDav.ListingRoundTrip | src/nextcloud_chatgpt_bridge/providers/webdav.py:212-222 | an entry answered with its own URL comes back as the normalised path if and only if user name and root consist of letters, digits, hyphens, dots, underscores and tildes (and slashes between the names of the root), and is skipped otherwise |
| WebDav.ListingComesBack | src/nextcloud_chatgpt_bridge/providers/webdav.py:212-222 | under the same condition a whole listing comes back complete and in order, otherwise empty |
| WebDav.UnderstoodLiesBelow | src/nextcloud_chatgpt_bridge/providers/webdav.py:212-222 | whatever the server answers, an entry that is understood has an href that decodes to the base, slashes and the path read, and no path is read without a slash in front of it |
| WebDav.BelowIsUnderstood | src/nextcloud_chatgpt_bridge/providers/webdav.py:217-222 | every href that decodes to the base, or to the base and a slash and more, is understood |
| WebDav.ParseMultistatus | src/nextcloud_chatgpt_bridge/providers/webdav.py:212-232 | the loop keeps exactly the understood entries with properties, in order |
| WebDav.DoubleSlashBase | src/nextcloud_chatgpt_bridge/providers/webdav.py:62-66 | under a root of two slashes the base is the user's folder followed by a segment `%2F%2F` and the quoted names |
| WebDav.DoubleSlashUnread | src/nextcloud_chatgpt_bridge/providers/webdav.py:212-222 | there no answer to a request of the client's own is understood |
| Targets.TargetIs | src/nextcloud_chatgpt_bridge/providers/webdav.py:68-83 | what a request for an accepted path addresses, in closed form: its names with the whitespace at the two ends of the path gone and emptied names dropped, refused if `..` appears |
| Targets.AddressesItself | src/nextcloud_chatgpt_bridge/providers/webdav.py:70 | that is the path itself if and only if there is no whitespace at its two ends |
| Targets.SharedIffSameAgain | src/nextcloud_chatgpt_bridge/providers/webdav.py:68-83 | two paths address the same entry if and only if normalising them gives the same path |
| Targets.FolderCanStartWithBlank | src/nextcloud_chatgpt_bridge/config.py:11-20 | for every folder, `./` with a blank in front of it is accepted as another text for the same entry |
| Targets.FolderCanEndWithBlank | src/nextcloud_chatgpt_bridge/config.py:11-20 | every folder is also accepted with a blank behind it |
| Targets.AcceptedNames | src/nextcloud_chatgpt_bridge/providers/webdav.py:68-79 | the names of every accepted path are clean and free of backslashes, as the lemmas about targets require |
| Folders.Remote.EnsureFolder | src/nextcloud_chatgpt_bridge/providers/webdav.py:129-156 | the loop computes the rounds over the prefixes, with the parse of each answer and the `stat` after each MKCOL, and stops at the first that fails |
| Folders.BaseReads | src/nextcloud_chatgpt_bridge/providers/webdav.py:113-115 | the client finds an entry in the answer about it if and only if user name and root need no escape |
| Folders.EnsureFolderIsExact | src/nextcloud_chatgpt_bridge/providers/webdav.py:135-155 | on a parent-closed tree and a stable path, under a base without escapes: the old tree plus exactly the missing prefixes as folders, or, with a file in the way, an error and the tree untouched; under any other base: an error, after creating the first prefix if it was missing; no request lacks its parent |
| Folders.WithFoldersIs | src/nextcloud_chatgpt_bridge/providers/webdav.py:137-155 | no entry is lost or changed and only prefixes of the path are new |
| Folders.SecondCallCreatesNothing | src/nextcloud_chatgpt_bridge/providers/webdav.py:129-156 | for every tree, every base and every path, a second call creates nothing, and succeeds if and only if the first did |
| Folders.RoundsStayClosed | src/nextcloud_chatgpt_bridge/providers/webdav.py:137-155 | whatever becomes of a call, on a tree whose entries all lie in folders they still do |
| Folders.OnlyStablePathsWork | src/nextcloud_chatgpt_bridge/providers/webdav.py:137-152 | in an empty workspace the call succeeds with exactly the prefixes of the path as folders if and only if every request addresses its own prefix and user name and root need no escape |
| Folders.StableMeansTrimmed | src/nextcloud_chatgpt_bridge/providers/webdav.py:70 | that is so exactly for paths whose prefixes have no whitespace at their ends |
| Search.SearchFiles | src/nextcloud_chatgpt_bridge/server.py:287-322 | for any server answers, even folders that contain each other, the search terminates and returns what the level-by-level listing determines, or the right validation error; every entry found has the folded query as a slice of its folded name, and on a tree that holds still a search that is not truncated finds exactly those within reach |
| Search.Walk | src/nextcloud_chatgpt_bridge/server.py:293-315 | the loop over the queue leads to the determined result; it ends by scan budget, then queue length |
| Search.ScanListing | src/nextcloud_chatgpt_bridge/server.py:300-313 | the loop over one listing counts, collects, stops and enqueues as determined |
| Search.ScanIs | src/nextcloud_chatgpt_bridge/server.py:297-322 | a single pass yields the first `max_results` matches among the first 2000 entries, truncated exactly if there are that many or more entries, failed only if a listing fails earlier |
| Search.AllIsReachable | src/nextcloud_chatgpt_bridge/server.py:292-315 | on a tree that holds still the level-by-level listing holds exactly the entries within `max_depth` steps of the start, cycles included |
| Search.UncutFindsReachable | src/nextcloud_chatgpt_bridge/server.py:292-322 | there a search that is not truncated returns exactly the matching entries within reach |
| Search.UncutIsComplete | src/nextcloud_chatgpt_bridge/server.py:316-322 | a search that neither fails nor is truncated has met no failure and missed no match |
| Search.NeededIs | src/nextcloud_chatgpt_bridge/server.py:306-311 | the scan stops right at the entry that completes the matches |
| Capabilities.AllKeys | src/nextcloud_chatgpt_bridge/capabilities.py:24-48 | the worklist collects what the first 10000 nodes in its order own, and terminates |
| Capabilities.WorklistIsRecursion | src/nextcloud_chatgpt_bridge/capabilities.py:30-48 | the result is always a subset of the recursively defined set and equal to it up to the cap |
| Capabilities.SmallDocumentsAreComplete | src/nextcloud_chatgpt_bridge/capabilities.py:33 | documents of at most 10000 objects and lists are collected completely |
| Pages.ExtractPdf | src/nextcloud_chatgpt_bridge/household/invoices.py:99-146 | the page loop: which pages are reached, what is kept, when the flag is raised and when it fails |
| Pages.ExtractAnswers | src/nextcloud_chatgpt_bridge/household/invoices.py:86-146 | encrypted documents are not read, more than 100 pages or a page that raises within the first 199998 characters are an error, whitespace alone needs OCR, and any other document gives its kept text |
| Pages.KeptIsPrefix | src/nextcloud_chatgpt_bridge/household/invoices.py:112-126 | the kept text is a prefix of the newline-join of all pages of at most 200000 characters, and the whole join when the flag is down |
| Pages.FlaggedButComplete | src/nextcloud_chatgpt_bridge/household/invoices.py:112-126 | the flag is raised on a complete text if and only if it has 199999 characters, or 200000 and no page ends after 199999 |
| Pages.BoundedIs | src/nextcloud_chatgpt_bridge/household/invoices.py:149-166 | NULs are dropped, the limit is kept and the flag says exactly whether something is missing |
| Amounts.MarkedText | src/nextcloud_chatgpt_bridge/household/invoices.py:434-444 | every amount text with a mark is read as the digits before and after its last mark, and refused if that mark also stands earlier |
| Amounts.UnmarkedText | src/nextcloud_chatgpt_bridge/household/invoices.py:434-444 | every amount text without a mark is read as a whole number |
| Amounts.AmountRoundTrip | src/nextcloud_chatgpt_bridge/household/invoices.py:434-444 | every signed amount of at most 28 digits, rendered plain or with any grouping of any locale, is read back exactly; a longer one is refused |
| Amounts.HalfEvenIsNearest | src/nextcloud_chatgpt_bridge/household/invoices.py:444 | rounding to two decimals takes the nearest amount, ties to even |
| Amounts.QuantizeIs | src/nextcloud_chatgpt_bridge/household/invoices.py:444 | an amount with any number of decimals becomes the nearest one with two, ties to even, and is refused beyond 28 digits |
| Reports.SavedOnce | src/nextcloud_chatgpt_bridge/household/service.py:195-249 | in every interleaving with lost answers and crashes, at most one call per path reports that it saved, its content is what is stored, and a call that reports otherwise found a report |
| Reports.ExistedIffFound | src/nextcloud_chatgpt_bridge/household/service.py:196-234 | over every run a call answers that its report existed if and only if its existence check was answered while the report was stored |
| Reports.SecondSaveFinds | src/nextcloud_chatgpt_bridge/household/service.py:214-234 | a call that begins once its report is stored can only answer that it existed, as long as no request fails and the client reads its answers |
| Reports.FailsIffOvertaken | src/nextcloud_chatgpt_bridge/household/service.py:196-241 | when no request fails and the client reads its answers, a call fails if and only if its report appeared between its check and its upload |
| Reports.FailsIffSomethingFailed | src/nextcloud_chatgpt_bridge/household/service.py:178-241 | over every run, on any client, a call has failed if and only if it crashed, a request of it was not answered, its answer could not be read or its upload found a report |
| Reports.CallFinishes | src/nextcloud_chatgpt_bridge/household/service.py:178-249 | a call is finished after five steps at the latest and has not saved with fewer |
| Reports.ReportsAreImmutable | src/nextcloud_chatgpt_bridge/providers/webdav.py:181-187 | a stored report never changes afterwards |
| Reports.ExactlyOneSaves | src/nextcloud_chatgpt_bridge/household/service.py:214-249 | if no request fails and all calls for a new path have finished, exactly one of them saved if user name and root need no escape, and otherwise none, with nothing stored |
| Reports.FailedButStored | src/nextcloud_chatgpt_bridge/providers/webdav.py:181-187 | in every run, a failed call has stored its report if and only if its upload to a free path was carried out and the answer lost, or was answered and the call failed or crashed after it |
| InvoicePaths.InvoiceStaysInInbox | src/nextcloud_chatgpt_bridge/household/service.py:273-280 | an invoice path is accepted exactly if its names start with those of the inbox |
| InvoicePaths.InvoiceLiesBelowInbox | src/nextcloud_chatgpt_bridge/household/service.py:181-186 | the request for an accepted invoice addresses an entry below that of the inbox if and only if the last name of the inbox does not end in whitespace, or vanishes with it, and trimming brings up no `..` |
| InvoicePaths.InvoiceCanLieOutside | src/nextcloud_chatgpt_bridge/household/service.py:181-186 | for every inbox with a blank at its end, every path below it that does not end in whitespace is accepted as an invoice, and the request for it addresses no entry below that of the inbox |
| InvoicePaths.InvoiceBesideItsInbox | src/nextcloud_chatgpt_bridge/household/service.py:273-280 | `Inbox /.` is configured as `Inbox `, and `Inbox /x.pdf` is such an invoice |
| InvoicePaths.ReportStaysInFolder | src/nextcloud_chatgpt_bridge/household/service.py:282-284 | requests for a report address its name in the report folder if and only if the folder does not start with whitespace |
| Profiles.DistinctEntriesIff | src/nextcloud_chatgpt_bridge/household/service.py:84-88 | three accepted folders are different entries if and only if no two of them leave the same names once the whitespace at their two ends is gone |
| Profiles.SettledFoldersAreDistinct | src/nextcloud_chatgpt_bridge/household/service.py:84-88 | so accepted folders that normalising leaves alone are different entries |
| Profiles.DistinctFoldersShareAnEntry | src/nextcloud_chatgpt_bridge/household/service.py:84-88 | for every folder there are accepted inputs whose inbox and archive are distinct texts and the same entry |
| ProfileRuns.ProfilesAreSound | src/nextcloud_chatgpt_bridge/persistence.py:118-131 | in every interleaving of the statements of configurations with each other and with connects, disconnects and crashes: one profile per tenant and connection, each on a live connection of its tenant, with checked values in every column that the record accepts |
| ProfileRuns.UndisturbedWrite | src/nextcloud_chatgpt_bridge/persistence.py:414-448 | with nothing in between, the three queries and the flush do what the method of the store does |
| ProfileRuns.DistinctUnlessCrossed | src/nextcloud_chatgpt_bridge/persistence.py:436-448 | over every run the folders of every stored profile are distinct at all times if and only if no update sets one folder to what another column, which it does not set, has become since the row was loaded |
| ProfileFindings.IndexIsNeeded | src/nextcloud_chatgpt_bridge/persistence.py:120-125 | without the unique index, from every sound state, two calls for a connection without a profile can both succeed and leave two |
| ProfileFindings.ForeignKeyIsNeeded | src/nextcloud_chatgpt_bridge/persistence.py:126-131 | without the foreign key, a disconnect between the queries and the commit can leave a profile without a connection |
| ProfileFindings.UpdatesCanCross | src/nextcloud_chatgpt_bridge/persistence.py:436-448 | from every sound state with a profile, two calls that move its inbox and its archive to the same new folder can both succeed |
| ProfileRuns.IdentityIsKept | src/nextcloud_chatgpt_bridge/household/service.py:98-112 | a profile id keeps its tenant, connection and creation time for the rest of the run |
| ProfileRuns.ReconfiguringKeepsIdentity | src/nextcloud_chatgpt_bridge/persistence.py:424-448 | a commit for a connection that has a profile, however stale its queries, keeps id, tenant, connection and creation time, and succeeds exactly if it updates this profile or has nothing to update |
| ProfileRuns.NoIdCollision | src/nextcloud_chatgpt_bridge/persistence.py:424-426 | with random ids no call ever answers that ids collide |
| Profiles.RepeatChangesNothing | src/nextcloud_chatgpt_bridge/household/service.py:88-96 | repeating a configuration that succeeded changes nothing and returns the same profile |
| ProfileAnswers.ReconfigureAnswers | src/nextcloud_chatgpt_bridge/household/service.py:88-114 | an accepted input for a connection that has a profile: the same settings are answered as they are, others replace them under the same id and creation time, and nothing is written if a record does not accept its fields |
| ProfileAnswers.FirstAnswers | src/nextcloud_chatgpt_bridge/household/service.py:98-114 | for a connection without one the profile is added under the new id with the time as both timestamps |
| ProfileAnswers.RefusedAnswers | src/nextcloud_chatgpt_bridge/household/service.py:77-87 | any other input is refused by the first check that fails, and nothing is written |
| ProfileAnswers.CheckAnswers | src/nextcloud_chatgpt_bridge/household/service.py:78-87 | the checks in terms of the words of the name, three letters from A to Z, and three normalised paths that differ; an accepted input gives exactly these fields |
| ProfileAnswers.JoinWordsConcat | src/nextcloud_chatgpt_bridge/household/service.py:78 | the words of a name are joined by single blanks |
| ProfileAnswers.LinkConfigureUnlink | src/nextcloud_chatgpt_bridge/persistence.py:126-131 | from empty tables, linking and seven steps of a call store exactly the profile asked for and answer with it, and a disconnect takes both away |
| ProfileRuns.UndisturbedCall | src/nextcloud_chatgpt_bridge/household/service.py:66-114 | with nobody in between the statements of a call do what its two transactions do |
| ProfileRuns.ColumnsAreMerged | src/nextcloud_chatgpt_bridge/persistence.py:424-448 | an update that commits sets exactly the columns in which its record differs from the row it loaded |
| Profiles.HouseholdService.ConfigureProfile | src/nextcloud_chatgpt_bridge/household/service.py:66-114 | the method on the store makes the checks in order, reads and writes as specified, and fails where the record read or built refuses a folder of more than 4096 characters |
| Profiles.DatabaseHouseholdProfileStore.Write | src/nextcloud_chatgpt_bridge/persistence.py:414-448 | every refusal of the upsert and the new table, with nothing in between |
| Profiles.InMemoryHouseholdProfileStore.GetProfileForConnection | src/nextcloud_chatgpt_bridge/household/store.py:42-54 | the search finds a profile of the connection exactly if there is one |
| Profiles.InMemoryHouseholdProfileStore.PutRecord | src/nextcloud_chatgpt_bridge/household/store.py:33-37 | a second profile of a connection is refused and the dictionary keeps one per connection |
| Profiles.StoresAgree | src/nextcloud_chatgpt_bridge/household/store.py:27-54 | on an owned connection both stores accept the same records and go on holding the same profiles |

## Left out

- Statement timing: a raised statement counts as not committed; a driver that raises after the commit and an asynchronous exception between two statements are not modelled.
- Records: their other fields always fit (fixed-length ids and references, a login name bounded where it is received, URLs parsed before), so only the bounds on roots and folders are modelled.
- Service.ConnectionService.ResolveSettings: the settings' demand for https is part of parsing the server address, and settings from the environment are not part of this model.
- Rows: the timestamps `created_at` of flows and the constant `verify_tls` are left out, and listings are sets, so their order is not modelled.
- Isolation: the cleanup's statements see what is committed when they run; row locks and serialisation failures of the database are not modelled.
- The remote side: login flow, app-password revocation, WebDAV and OCS answers are inputs of the steps; the best-effort revocation after a failed poll changes no local state and is left out.
- Stores.CredentialStore.Put: takes the random reference as an input and stores plain text; `Vault` covers the encryption separately.
- Vault.RunsRefine: assumes an ideal authenticated cipher; nonce reuse and real AES-GCM are not modelled, and `from_json` decoding of keyrings is left out.
- Limiter.FixedWindowRateLimiter.Consume: time is a real number, so floating-point rounding of the monotonic clock is not modelled; keys of one call are distinct, as its only caller makes them.
- Percent.QuoteRoundTrip: percent-decoding that meets invalid UTF-8 yields no text here, where Python substitutes replacement characters; the quoted texts above never do.
- Paths: characters are Unicode scalar values, so lone surrogates in Python strings are not modelled.
- WebDav.ParseMultistatus: XML parsing and the other properties of an entry are left out; an href is taken as its path.
- Folders.Remote.EnsureFolder: transport errors and other clients acting at the same time are left out.
- Search.SearchFiles: `casefold` and the listing requests are function parameters; the closing translation of errors is left out.
- Amounts.MarkedText: the texts are digits, commas, dots, blanks, no-break spaces, apostrophes and a leading minus, as the amount pattern delivers them; exponents, infinities and other forms that `Decimal` accepts are not modelled.
- Pages.ExtractPdf: PDF parsing is an input, page by page; page counts and warnings of the result are left out.
- ProfileRuns.ProfilesAreSound: statements see what is committed when they run (READ COMMITTED); lock waits and the deletion of single profiles, which no service call makes, are not modelled.
- Profiles.HouseholdService.ConfigureProfile: the words of the display name, `upper` and the readability of the credential are inputs.
- Reports.SavedOnce: the report path stands for the resource it addresses, and nobody deletes or overwrites reports by other means.
- Capabilities.AllKeys: keys are strings already and `lower` is a parameter.
- Authentication, identity, egress proxy, tool registration, diagnostics, migrations and deployment scripts are not part of this model: mostly single-branch checks over library results.
- Invoice field heuristics (labels, dates, IBAN) have no specification beyond their own code.
- The listing of shares and the capability report are thin filters over what is modelled here.
