# Verified model of the API's session, file and planning core

A Dafny model of the parts of the API service whose promises span many requests: device
sign-in and its rotating credentials, browser refresh, the deletion of stored files, project
folders, section ids of resource pages, and the log of time allocations. Each part is a set of
tables, functions that say what one request or one database access does to them, and classes
whose methods make the same changes step by step. The theorems are about whole runs.

`dafny verify dfyconfig.toml` checks everything.

## How the parts fit together

**Device sessions** (`Clock`, `PollGate`, `Device*`, `AadEncoding`). `DeviceTables` holds the
rows, `DeviceTransactions` every transaction as a function `Step` from store and clock reading
to store and outcome, with commit and rollback decided as in the source. `DeviceInvariant` and
`DeviceSteps` prove the invariant of every reachable store by sorting the transactions into a
few ways in which tables change. `DeviceRuns`, `DeviceConsent`, `DeviceGates`,
`DeviceAvailability`, `DeviceLifetimes`, `DeviceEnds`, `DeviceGrants` and `DeviceErasure` state
what follows for runs: one unforked chain of credentials per family, fatal
replay, permanent revocation, bounded lifetime, consent and proof of possession behind every
entry, the pace of polls, the lifetime of everything issued, exactly what ends a family, a session, a
credential or a grant, exact conditions of success and retries that always recover, agreement of the two access
checks, and the invisibility of the erasing sweeps. `DeviceDatabase` is the imperative form:
every method is proved to be exactly one `Step`. Clock readings are in nanoseconds and stored
instants in whole seconds, as in the source. The expiry that a review writes and the read after
it are two calls of a run, since other calls may come between them.

**Browser refresh** (`BrowserRefresh`, `BrowserLifetimes`). A refresh call is a read, a compare-and-swap
transaction and a second read; any number of calls interleave with logins, logouts,
password changes and accounts being disabled and enabled.

**Files** (`FileTables`, `FileRuns`, `FileHistory`, `FileOutcomes`, `FileDatabase`). Upload status, signed-URL
expiry, versioned storage configurations and the leased deletion queue, under any number of
workers whose claim, deletion and report are separate steps. The database object records its
own run, so that the theorems of `FileHistory` apply to it, and the clean-up loop is proved
while everybody else goes on working.

**Folders** (`Text`, `Folders`, `FolderOutcomes`). The forest of folders, the requests on it with their theorems
and imperative form, and then the single writes of those requests in any order and number:
the forest stays sound exactly if each insert and each move still finds its folder active.

**Section ids** (`Sections`). The two passes over the events of a body. New ids are draws that
may repeat and may collide; the theorems ask only that a free one always comes, and
`Sections.EnoughExists` exhibits such draws for every body.

**Time allocations** (`TimeAllocations`, `TimeAllocationOutcomes`, `TimeAllocationRuns`). The first
file serves each request alone and proves what the log is then good for, the second what each
request stores and logs. The third takes every access of a
request as a step of its own, lets any number of requests interleave, and proves exactly when
the log still tells the table and when an entry is undone twice. A request left alone is the
same as one served alone (`TimeAllocationRuns.AloneIsServe`).

The functions that describe single operations are specifications of the methods. What they
promise is stated beside them for every step of every run, in terms of rows, outcomes and clock
readings alone: the modules whose names end in `Lifetimes`, `Ends`, `Grants` and `Outcomes`.

Identifiers are numbers. A token and its stored digest are one number, so digests are taken as
injective on the tokens in use; decryption succeeds exactly under the key and authenticated
data of the encryption. Random draws are inputs of the operations: a draw that collides with a
unique column fails and rolls back as the schema makes it do, so no freshness is assumed for
device and browser sessions. Lease tokens of the deletion queue are drawn from a counter.
The unique, check and foreign-key constraints
used are those of `api/migrations`.

## Findings about the source

- The clean-up of a deletion worker never meets the location mismatch, and enqueueing never
  meets its two conflicts (`FileHistory.LocationAlwaysAgrees`, `FileHistory.EnqueueNeverConflicts`).
- The lost-update branch of the poll gate is unreachable (`PollGate.SwapNeverLost`).
- The checks of a folder creation are not in the transaction of its insert, and the check of a
  file move is not in that of its update. A deletion in between leaves an active folder under a
  deleted one, or a file in a deleted folder (`Folders.LateInsertOrphans`,
  `Folders.LateMoveStrands`). Nothing else goes wrong: the unique index refuses a name taken
  meanwhile, and the forest is sound exactly if every insert and every move still finds its
  folder active (`Folders.InterleavingsSoundIff`).
- A request on a time allocation checks, writes, reads again and logs by separate statements. The
  log tells a row exactly if the last write of it put there what the last write seen by the last
  entry did (`TimeAllocationRuns.LogTellsRowIff`); it does if the request that wrote last also
  logged last. It fails for two updates that write in one order and log in the other, unless
  both wrote the same (`TimeAllocationRuns.UpdatesCross`), and for every update whose entry comes
  after that of a deletion in between (`TimeAllocationRuns.UpdateOutlivesDeletion`).
- An entry is undone twice exactly if one undo of it checks before another has logged
  (`TimeAllocationRuns.UndoneTwiceIff`). Two such undos of a deletion bring the allocation back
  as two rows (`TimeAllocationRuns.UndosCross`).

## Model

| member | source | states |
|---|---|---|
| `Clock.StoredComparison` | api/src/domains/device_sessions.rs:2002-2010 | Comparing a stored whole second with the fine clock decides the same as comparing it with the stored form of that clock. |
| `PollGate.SwapNeverLost` | api/src/domains/device_sessions.rs:1589-1628 | The guarded update after a passed check always finds its row. |
| `PollGate.RetryAfterMeetsGate` | api/src/domains/device_sessions.rs:1589-1628 | The pause a too-early client is told misses the stored gate by less than a second, and is longer than the interval. |
| `PollGate.AdmittedIff` | api/src/domains/device_sessions.rs:1589-1628 | A poll is admitted exactly when its whole second has reached the gate. |
| `PollGate.GateFormula` | api/src/domains/device_sessions.rs:1589-1628 | After any polls the gate is the last admitted second plus one interval, and one more for every early poll since. |
| `PollGate.AdmittedPollsAreSpaced` | api/src/domains/device_sessions.rs:1589-1628 | Any two admitted polls are at least one interval apart. |
| `DeviceSteps.StepIsSound` | api/src/domains/device_sessions.rs:1745-1768 | Every transaction, committed or rolled back, keeps the invariant of the store and takes back nothing of its history; credentials it hands out match the rows. |
| `DeviceRuns.Reachable` | api/src/domains/device_sessions.rs:1745-1768 | The invariant holds in every state of every run. |
| `DeviceRuns.History` | api/src/domains/device_sessions.rs:1745-1768 | Over any stretch of a run, families, credentials, rotations and consumed grants stay, and only fade. |
| `DeviceRuns.FamilyIsAChain` | api/src/domains/device_sessions.rs:1110-1257 | The rows of a family are generations 0 to n once each, with a rotation record for all but the last; only the last may be active. |
| `DeviceRuns.KeysAreGloballyUnique` | api/src/domains/device_sessions.rs:1131-1257 | No transaction id names two rotations or grants, and no token, code or session id two rows. |
| `DeviceRuns.ChainNeverForks` | api/src/domains/device_sessions.rs:1017-1093 | Two calls of a run that hand out credentials of one family and generation hand out the same ones. |
| `DeviceRuns.CredentialsMatchRows` | api/src/domains/device_sessions.rs:1098-1257 | Credentials once handed out agree, then and ever after, with the stored rows of their generation. |
| `DeviceRuns.ReplayIsFatal` | api/src/domains/device_sessions.rs:1028-1041 | A used refresh token under another transaction id revokes the family in that very step; in every continuation no row of it is active and no token of it gets in. |
| `DeviceRuns.ReplayErrorIff` | api/src/domains/device_sessions.rs:1017-1041 | The replay error is reported exactly for such a presentation. |
| `DeviceRuns.RevokedForever` | api/src/domains/device_sessions.rs:831-893 | Once a family is revoked, in no continuation is it active again, nor does a token of it authenticate, rotate or recover. |
| `DeviceRuns.DeadRowsForever` | api/src/domains/device_sessions.rs:831-893 | A revoked family whose rows are all inactive never has an active row again. |
| `DeviceRuns.LifetimeIsBounded` | api/src/domains/device_sessions.rs:1098-1129 | Nothing of a family is minted from its first issue plus the absolute lifetime on, refresh expiries stay within it, and no access token authenticates after it plus the access lifetime. |
| `DeviceRuns.RotationsCease` | api/src/domains/device_sessions.rs:1042-1129 | No rotation, recovery included, succeeds from the absolute expiry plus the idempotency time on. |
| `DeviceRuns.LeaseAgrees` | api/src/domains/device_sessions.rs:629-683 | A lease revalidates in any later store, at any time, exactly when its token would authenticate there, as the same identity. |
| `DeviceRuns.LeaseAgreesInRuns` | api/src/domains/device_sessions.rs:629-775 | The same for any lease taken in a run and any later point of it. |
| `DeviceRuns.GrantHasOneFamily` | api/src/domains/device_sessions.rs:1278-1464 | A grant has exactly one family when it is consumed and none otherwise. |
| `DeviceRuns.ExchangesAgree` | api/src/domains/device_sessions.rs:1278-1320 | All successful exchanges of one device code hand out the same credentials. |
| `DeviceRuns.CapacityHolds` | api/src/domains/device_sessions.rs:895-951 | At most 500 grants of a server are ever active. |
| `DeviceRuns.DecideIff` | api/src/domains/device_sessions.rs:1643-1707 | A decision succeeds exactly on a pending, unexpired grant, for an approval by an active user, and then it is recorded. |
| `DeviceRuns.DecisionIsFinal` | api/src/domains/device_sessions.rs:1643-1707 | Approval and denial of one grant have a single winner in any run. |
| `DeviceRuns.OnlyIssuesGoLive` | api/src/domains/device_sessions.rs:1761-1768 | A call that does not hand out credentials, above all one that fails, makes no session or credential active. |
| `DeviceRuns.InvalidStateOnly` | api/src/domains/device_sessions.rs:2012-2025 | The internal-fault error arises only when all code draws of a start collide, or the installation of the approved user that an exchange signs in is known and revoked; inconsistent rows never occur. |
| `DeviceRuns.StartFaultIff` | api/src/domains/device_sessions.rs:272-350 | A start with a valid policy and room for a grant fails internally exactly when its first five draws all collide with the grants left after expiry and clean-up. |
| `DeviceConsent.EveryEntryWasApproved` | api/src/domains/device_sessions.rs:1278-1464 | Whoever is handed credentials or recognised by a token is the user who approved the grant of that family, as an active account, after it was requested. |
| `DeviceConsent.EntersAlive` | api/src/domains/device_sessions.rs:960-1015 | Authentication, rotation and recovery succeed only while account, device and family are active, and for the device, server and generation that were named. |
| `DeviceConsent.ExchangeProvesPossession` | api/src/domains/device_sessions.rs:1278-1320 | A successful exchange or recovery presents the verifier of the challenge its grant was requested with, at the server that issued it. |
| `DeviceConsent.PolledApprovalIsConsent` | api/src/domains/device_sessions.rs:1555-1587 | A poll reports a grant as approved or consumed only after it was requested and then approved by an active account. |
| `DeviceConsent.ReviewedCanBeDecided` | api/src/domains/device_sessions.rs:352-389 | A grant shown for review carries the code and server asked for, can be decided at that moment, and not a second time, whatever ran between the expiry of the review and its read, unless the grant was only requested then. |
| `DeviceGates.StoredGateIsGateAfter` | api/src/domains/device_sessions.rs:1555-1628 | Between any two points of a run, the stored gate of a grant is the one the PollGate formula gives for the polls and exchanges that reached it, and its interval stays. |
| `DeviceGates.LetThroughAreSpaced` | api/src/domains/device_sessions.rs:1589-1628 | Any two polls or exchanges of a run that the gate of one grant lets through are its interval apart, and that is at least two seconds. |
| `DeviceGates.PollAnswers` | api/src/domains/device_sessions.rs:1555-1628 | A poll that reaches the gate reports the status of the grant when let through, and else the pause that meets the new gate. |
| `DeviceAvailability.FirstExchangeIff` | api/src/domains/device_sessions.rs:1278-1464 | The exact condition under which a grant not yet exchanged hands out credentials. |
| `DeviceAvailability.FirstRotationIff` | api/src/domains/device_sessions.rs:960-1258 | The exact condition under which an unused refresh token rotates. |
| `DeviceAvailability.RetryRecovers` | api/src/domains/device_sessions.rs:1042-1093 | A rotation repeated before its stored result expires answers the same, whatever ran in between, while account, device and family live. |
| `DeviceAvailability.RotationIsRecorded` | api/src/domains/device_sessions.rs:1131-1257 | A rotation leaves a record that answers its retries, for the idempotency time from when it was made. |
| `DeviceAvailability.ExchangeRetryRecovers` | api/src/domains/device_sessions.rs:1289-1314 | An exchange repeated before its stored result expires answers the same, whatever ran in between. |
| `DeviceAvailability.ExchangeIsStored` | api/src/domains/device_sessions.rs:1410-1464 | An exchange leaves its result stored, a first one for the idempotency time. |
| `DeviceAvailability.CredentialsLetIn` | api/src/domains/device_sessions.rs:685-775 | An access token handed out authenticates, as the user it was issued for, exactly while its session is current and unexpired and account, device and family live. |
| `DeviceLifetimes.RotationLives` | api/src/domains/device_sessions.rs:1098-1257 | A token that rotates was live and is spent with that; the next one lives for the sliding lifetime, cut off at the family's absolute expiry, its session for the access lifetime, and the answer says the same. |
| `DeviceLifetimes.EntryLives` | api/src/domains/device_sessions.rs:1346-1464 | A first exchange founds a family of the approver on the installation that asked, with all three lifetimes starting then, in the rows and in the answer. |
| `DeviceLifetimes.IdleTokensNeverRotate` | api/src/domains/device_sessions.rs:1098-1129 | A token presented for the first time a sliding lifetime or more after its issue never rotates. |
| `DeviceEnds.StepEnds` | api/src/domains/device_sessions.rs:831-893 | In every step of every run, exactly these end something: a user's revocation and a misused token end a family with its rows, a password change ends families, a rotation spends its source, and an overdue row expires when presented. |
| `DeviceEnds.FamilyActiveIff` | api/src/domains/device_sessions.rs:831-893 | A family is active exactly until the first call that ends it. |
| `DeviceEnds.AccessActiveIff` | api/src/domains/device_sessions.rs:685-775 | A session is active exactly until the first call that ends it. |
| `DeviceEnds.RefreshActiveIff` | api/src/domains/device_sessions.rs:960-1258 | A refresh credential is active exactly until the first call that ends it. |
| `DeviceEnds.UnusedTokenRotatesIff` | api/src/domains/device_sessions.rs:960-1258 | A token presented for the first time rotates exactly if nothing has ended it since its issue, both its lifetimes last, account, device and family live, and the draws are new. |
| `DeviceEnds.RevocationIff` | api/src/domains/device_sessions.rs:817-829 | A user's revocation succeeds exactly for an active family of theirs; otherwise it changes nothing. |
| `DeviceEnds.RevocationTakes` | api/src/domains/device_sessions.rs:831-893 | After a successful revocation the family is dead for good, no row of it is live and none of its tokens gets in. |
| `DeviceEnds.RevocationSpares` | api/src/domains/device_sessions.rs:831-893 | A revocation leaves the rows of all other families, and all other tables, as they were. |
| `DeviceEnds.UsedTokenIff` | api/src/domains/device_sessions.rs:1028-1093 | A used token is answered again exactly under its transaction, in its time and with its key, and changes nothing then; any other use is fatal to the family, for good. |
| `DeviceEnds.PasswordChangeKills` | api/src/domains/users.rs:425-452 | A password change kills every family of the account but the kept one, for good, and leaves all others. |
| `DeviceEnds.DeviceRevokedForever` | api/src/domains/device_sessions.rs:960-1015 | Nothing on a revoked device is ever let in or founded again. |
| `DeviceEnds.DisabledUntilEnabled` | api/src/domains/device_sessions.rs:1709-1721 | A disabled account is let in nowhere, enters nothing and approves nothing until it is enabled. |
| `DeviceEnds.RefusalsAreTrue` | api/src/domains/device_sessions.rs:960-1015 | Who is told that an account, device or family is gone or a token expired is told the truth about the token presented. |
| `DeviceEnds.RecordsMove` | api/src/domains/device_sessions.rs:494-521 | A stored rotation result is dropped exactly by a sweep that picks it or a retry of it, after its time. |
| `DeviceGrants.StartIff` | api/src/domains/device_sessions.rs:272-350 | A start succeeds exactly under a valid policy, with fewer than 500 grants waiting and an untaken draw among five; it opens the grant as requested, for the authorization time, and reports just that expiry. A full server asks for a minute. |
| `DeviceGrants.GrantMoves` | api/src/domains/device_sessions.rs:523-571 | In every step of every run a grant is decided, consumed, expired or removed by exactly the calls that should, removal coming an hour after expiry or denial at the earliest. |
| `DeviceGrants.DecisionStands` | api/src/domains/device_sessions.rs:1643-1707 | An approval leaves a grant approved, consumed or expired, by that approver; a denial leaves it denied. |
| `DeviceGrants.DenialIsFinal` | api/src/domains/device_sessions.rs:1555-1587 | Every later poll of a denied grant reports the denial, every review and exchange is refused. |
| `DeviceGrants.DeniedWasDenied` | api/src/domains/device_sessions.rs:1643-1707 | A grant that is denied was denied by a decision of the run. |
| `DeviceGrants.KeptForAnHour` | api/src/domains/device_sessions.rs:523-571 | A grant that expires or is denied stays on record, unchanged, for an hour. |
| `DeviceGrants.PollsTell` | api/src/domains/device_sessions.rs:1555-1587 | A poll of a closed grant tells its status, of an overdue one that it has expired, of none that the code is wrong. |
| `DeviceGrants.ConsumedExchangeIff` | api/src/domains/device_sessions.rs:1289-1314 | A consumed grant hands its credentials out again exactly for its verifier, transaction and key, in its time; else it says which is wrong. |
| `DeviceGrants.ExchangeRefusalsAreTrue` | api/src/domains/device_sessions.rs:1278-1345 | A refused first exchange is told the truth about its verifier, the decision, the time or the account. |
| `DeviceGrants.ResultsMove` | api/src/domains/device_sessions.rs:573-590 | A stored exchange result is erased exactly by the result sweep once it has run out; a consumed grant changes in nothing else. |
| `DeviceErasure.AlikeRuns` | api/src/domains/device_sessions.rs:494-590 | Two stores that differ only in expired ciphertexts answer every run on a forward clock alike and stay so. |
| `DeviceErasure.ErasureIsUnobservable` | api/src/domains/device_sessions.rs:494-521 | Leaving out the erasing sweeps of a run changes no answer and, expired ciphertexts apart, no table. |
| `DeviceDatabase.Database.FinishTransaction` | api/src/domains/device_sessions.rs:1749-1768 | Commit keeps the tables; rollback restores those the transaction began with. |
| `DeviceDatabase.Database.StartAuthorization` | api/src/domains/device_sessions.rs:272-350 | The loop over code draws inside its transaction is one start step and keeps the invariant. |
| `DeviceDatabase.Database.ExpireAuthorizationByUserCode` | api/src/domains/device_sessions.rs:1723-1743 | One expiry step, the first access of a review. |
| `DeviceDatabase.Database.ReviewAuthorization` | api/src/domains/device_sessions.rs:360-389 | The read of a review: the grant of that code at that server while pending, and else the error its status calls for. |
| `DeviceDatabase.Database.DecideAuthorization` | api/src/domains/device_sessions.rs:1643-1707 | One decision step. |
| `DeviceDatabase.Database.PollAuthorization` | api/src/domains/device_sessions.rs:1555-1587 | One poll step, gate included. |
| `DeviceDatabase.Database.EnforcePollGate` | api/src/domains/device_sessions.rs:1589-1628 | Read, compare and guarded write of the gate are the check of PollGate. |
| `DeviceDatabase.Database.ExchangeAuthorization` | api/src/domains/device_sessions.rs:422-458 | The statements of an exchange, rolled back on an internal fault, are one exchange step. |
| `DeviceDatabase.Database.IssueFirstCredentials` | api/src/domains/device_sessions.rs:1346-1464 | The inserts of a first issue give the specified tables, or the fault that undoes them. |
| `DeviceDatabase.Database.RotateRefreshToken` | api/src/domains/device_sessions.rs:460-492 | The statements of a rotation, rolled back on an internal fault, are one rotation step. |
| `DeviceDatabase.Database.RevokeFamilyRows` | api/src/domains/device_sessions.rs:831-893 | The three updates of a revocation. |
| `DeviceDatabase.Database.AuthenticateAccessToken` | api/src/domains/device_sessions.rs:685-775 | One authentication step, with the expiry it may write. |
| `DeviceDatabase.Database.RevalidateAccessLease` | api/src/domains/device_sessions.rs:629-683 | The checks of a lease, in their order. |
| `DeviceDatabase.Database.RevokeFamilyForUser` | api/src/domains/device_sessions.rs:817-829 | One revocation step. |
| `DeviceDatabase.Database.CleanupExpiredRotationResults` | api/src/domains/device_sessions.rs:494-521 | Erases the oldest expired rotation results up to the limit: a batch sweep of exactly that size. |
| `DeviceDatabase.Database.EraseExpiredExchangeResults` | api/src/domains/device_sessions.rs:573-590 | Erases every expired exchange result. |
| `DeviceDatabase.Database.CleanupExpiredAuthorizations` | api/src/domains/device_sessions.rs:523-571 | Expires overdue grants, then removes a batch of retained ones that have no family. |
| `AadEncoding.StructuredAad` | api/src/domains/device_sessions.rs:2034-2047 | The loop over the buffer computes the length-prefixed encoding. |
| `AadEncoding.RoundTrip` | api/src/domains/device_sessions.rs:2034-2047 | A decoder recovers domain and fields from the encoding, for any domain without a zero byte and fields below 2^32 bytes. |
| `AadEncoding.EncodeIsInjective` | api/src/domains/device_sessions.rs:2034-2047 | Equal encodings have equal domains and equal fields. |
| `AadEncoding.DecimalRoundTrip` | api/src/domains/device_sessions.rs:1814-1833 | The decimal text of a generation determines it. |
| `AadEncoding.AadBindsEveryComponent` | api/src/domains/device_sessions.rs:1814-1850 | Equal authenticated data mean the same use and equal components; rotation and exchange never coincide. |
| `AadEncoding.ConstantTimeEqIsEquality` | api/src/domains/device_sessions.rs:1952-1962 | The comparison without early exit is equality. |
| `BrowserRefresh.Reachable` | api/src/domains/auth.rs:355-461 | In every interleaving, what refresh calls have returned is what the spent row of their token records. |
| `BrowserRefresh.CallsAgree` | api/src/domains/auth.rs:355-461 | All refresh calls for one token that return a session return the same one. |
| `BrowserRefresh.RotationConservesActive` | api/src/domains/auth.rs:374-440 | A swap leaves the number of active refresh rows of every user as it was. |
| `BrowserRefresh.TokenRotatesOnce` | api/src/domains/auth.rs:374-440 | At most one swap of a token ever succeeds. |
| `BrowserRefresh.LogoutForgetsRotations` | api/src/domains/auth.rs:249-308 | After a committed logout no read recovers a rotation of that user that went before. |
| `BrowserRefresh.LateCallsRecoverIff` | api/src/domains/auth.rs:463-517 | Once a token has rotated, a later read of it gets the session of that rotation exactly while the recovery time lasts and the account is active and has not logged out, changed its password or been disabled since. |
| `BrowserRefresh.SetUserKeepsTables` | api/src/domains/users.rs:547-605 | Disabling an account, which revokes its rows and clears its recoveries, keeps the tables sound and takes no row back. |
| `BrowserRefresh.UninterruptedIff` | api/src/domains/auth.rs:355-461 | An undisturbed call returns a session exactly for a live row of an active account, or for a rotation within its recovery time. |
| `BrowserLifetimes.SwapsOpen` | api/src/domains/auth.rs:374-455 | A swap that finds its row live and its draw unused opens one row of the same user for the refresh lifetime and one access token; otherwise it reads again or breaks off, and touches nothing. |
| `BrowserLifetimes.LoginsOpen` | api/src/domains/auth.rs:164-226 | A login opens the same for its own lifetime, unless its draw is in use. |
| `BrowserLifetimes.LiveRowAt` | api/src/domains/auth.rs:249-353 | A refresh row is live exactly until its swap, its logout, a password change that does not keep it or the disabling of its account, and expires as opened or as last prolonged. |
| `BrowserLifetimes.TokenRefreshesIff` | api/src/domains/auth.rs:355-461 | From the login or rotation that opened a token, an undisturbed refresh with an unused draw succeeds exactly while nothing has ended it, it is unexpired and its account active; once it has ended nothing new is issued. |
| `BrowserLifetimes.AccountsMove` | api/src/domains/auth.rs:164-226 | Accounts are enabled and disabled by nothing else, and access tokens come from logins and won swaps only. |
| `BrowserRefresh.Database.FindRefreshSession` | api/src/domains/auth.rs:463-492 | Finds the row of a token exactly when it may be read. |
| `BrowserRefresh.Database.SwapRefreshSession` | api/src/domains/auth.rs:374-440 | Compare-and-swap, insertion of the new pair, and the conflict when the row is taken. |
| `BrowserRefresh.Database.RevokeRefreshSession` | api/src/domains/auth.rs:249-308 | Revokes the row of a token and clears the recoveries of its user. |
| `BrowserRefresh.Database.RefreshSession` | api/src/domains/auth.rs:355-461 | The whole call, undisturbed, is the three accesses one after the other. |
| `FileTables.NextJob` | api/src/domains/files.rs:1605-1640 | A claim takes the due job that comes first by due time and id, and there is one exactly when some job is due. |
| `FileTables.BackOff` | api/src/domains/files.rs:1696-1723 | The wait after failures is between a minute and six hours, never shrinks, and doubles through the first nine. |
| `FileTables.MaxVersion` | api/src/domains/storage.rs:392-401 | No version of the provider is above it, and it is one of them unless there is none. |
| `FileRuns.StepIsSound` | api/src/domains/files.rs:1605-1723 | Every access keeps the invariant of files, configurations, jobs and claims, and takes back nothing. |
| `FileRuns.EnqueueOutcome` | api/src/domains/files.rs:244-336 | Enqueueing succeeds for every existing file of a sound store. |
| `FileHistory.NothingIsTakenBack` | api/src/domains/files.rs:179-205 | In any run statuses move forward, an upload expiry grows only while uploading, due times and attempts of a job never fall, a completed job never changes, and configurations keep location and version. |
| `FileHistory.NoEarlyDeletion` | api/src/domains/files.rs:294-336 | No object is deleted before any upload URL ever signed for it has expired and the grace period has passed. |
| `FileHistory.OnlyDeletedFilesAreDeleted` | api/src/domains/files.rs:278-336 | A file whose object a worker deletes is marked deleted then and ever after. |
| `FileHistory.LocationAlwaysAgrees` | api/src/domains/storage.rs:930-957 | The location in a claimed job equals that of its configuration whenever a deletion runs. |
| `FileHistory.EnqueueNeverConflicts` | api/src/domains/files.rs:260-276 | The conflicts for a missing or different configuration arise in no run. |
| `FileHistory.OneLiveLease` | api/src/domains/files.rs:1605-1640 | No two unexpired leases are for one job. |
| `FileHistory.AttemptsCountClaims` | api/src/domains/files.rs:1605-1640 | The attempt count of a job is the number of claims it has had. |
| `FileHistory.CompletedAtMostOnce` | api/src/domains/files.rs:1675-1694 | A job is completed exactly when one report of it was accepted, and at most one ever is. |
| `FileHistory.ReportAcceptedIffLatest` | api/src/domains/files.rs:1675-1723 | A report is accepted exactly when no later claim of the job was made; a late one changes nothing, one within its lease is always accepted. |
| `FileHistory.ClaimNumbersItself` | api/src/domains/files.rs:1605-1640 | A claim succeeds exactly when a job is due, and carries the number of claims so far. |
| `FileHistory.ConfigsAreVersioned` | api/src/domains/storage.rs:344-471 | Later configurations have higher versions, and at most one is live. |
| `FileHistory.RollbackRestores` | api/src/domains/storage.rs:473-623 | A rollback succeeds exactly for a version in use, and then the location of that version is the live one, under a new configuration. |
| `FileHistory.SaveTakesOver` | api/src/domains/storage.rs:344-471 | Saving makes the new configuration the only live one, or as a draft leaves the live one alone. |
| `FileHistory.DeletesOwnObject` | api/src/domains/files.rs:1540-1557 | What a worker deletes is the object of the file in question, by its key and in its bucket. |
| `FileOutcomes.SaveStores` | api/src/domains/storage.rs:366-465 | Saving stores the endpoint, region and bucket asked for under the next version, in the table and in the history, and moves no other configuration but the one it puts out of use. |
| `FileOutcomes.RollbackStores` | api/src/domains/storage.rs:473-623 | A rollback stores the location of the version in the same way, and only for a version in use. |
| `FileOutcomes.CreateStores` | api/src/domains/files.rs:399-460 | A new file lies where its configuration says and is still uploading. |
| `FileOutcomes.FilesMove` | api/src/domains/files.rs:1746-1800 | In every step of every run a file is uploaded, deleted or prolonged by exactly the accesses that should, the sweep of abandoned uploads coming 4 hours and 5 minutes after the URL has expired. |
| `FileOutcomes.EnqueueQueues` | api/src/domains/files.rs:244-336 | The first request queues the object of the file at its stored place, due in 65 minutes or 4 hours and 5 minutes after its URL expires, whichever is later; a second queues nothing. |
| `FileOutcomes.ClaimLeases` | api/src/domains/files.rs:1605-1640 | A claim takes the job that has been due longest, hands out what is stored of it, and leases it for 300 seconds. |
| `FileOutcomes.NobodyClaimsBefore` | api/src/domains/files.rs:1605-1640 | A due time once set holds: no claim of the job comes before it. |
| `FileOutcomes.FailedDeletionWaits` | api/src/domains/files.rs:1696-1723 | A failed deletion puts the job back without a lease, for a minute after its first claim, twice that with each further one, at most six hours; nothing else changes. |
| `FileOutcomes.NoEarlyRetry` | api/src/domains/files.rs:1696-1723 | Nobody claims it before that. |
| `FileOutcomes.DeletionCompletes` | api/src/domains/files.rs:1675-1694 | An accepted deletion completes the job for good, without configuration or lease; nothing else changes. |
| `FileDatabase.Database.SaveConfig` | api/src/domains/storage.rs:366-465 | Disabling, numbering and the two inserts are one save step. |
| `FileDatabase.Database.RollbackConfig` | api/src/domains/storage.rs:473-623 | One rollback step, or the error that leaves the tables alone. |
| `FileDatabase.Database.ExtendUploadUrl` | api/src/domains/files.rs:179-205 | Moves the expiry forward, or conflicts when the file is not uploading. |
| `FileDatabase.Database.EnqueueDeletedFile` | api/src/domains/files.rs:244-336 | Marks the file deleted and queues it once; never a conflict. |
| `FileDatabase.Database.ClaimJob` | api/src/domains/files.rs:1605-1673 | Leases the first due job, and comes back empty exactly when none is due. |
| `FileDatabase.Database.Report` | api/src/domains/files.rs:1675-1723 | Completes or requeues the job exactly if the claim still stands. |
| `FileDatabase.Database.CleanupTurn` | api/src/domains/files.rs:1540-1577 | One turn of the loop among other workers takes at most one job and accounts for it once. |
| `FileDatabase.Database.CleanupDeletedFiles` | api/src/domains/files.rs:1515-1580 | Among any other workers, processed is completed plus failed plus lease-lost, within the limit, each the true count of the run; the loop stops early only when nothing is due. Due counts the jobs due at the start; not due is the number of open jobs read next, less those, and never below zero. |
| `Text.TrimIsStable` | api/src/domains/files.rs:2422-2435 | Trimmed text is left alone by trimming. |
| `Text.TrimIff` | api/src/domains/files.rs:2422-2435 | Trimming takes all white space off both ends and nothing else, and there is only one such text. |
| `FolderOutcomes.CreateStores` | api/src/domains/files.rs:2048-2089 | A folder is created exactly if its name is one, its parent fits and no active sibling has the name; it is then a new row with that parent, project, trimmed name and description. Each refusal changes nothing. |
| `FolderOutcomes.UpdateStores` | api/src/domains/files.rs:2127-2159 | An update is accepted exactly for an active folder and a free valid name; it sets what it was given and nothing else. |
| `FolderOutcomes.MovePlaces` | api/src/domains/files.rs:2390-2420 | A known file is moved exactly into an active folder or to the root, and nothing else moves. |
| `Folders.ValidatedNamesAreStable` | api/src/domains/files.rs:2422-2435 | A name that passed validation is left alone by it. |
| `Folders.RunIsSound` | api/src/domains/files.rs:2048-2244 | While every request is served alone, parents are older rows of the same project, active folders have active parents, active siblings have different valid names, and files lie in active folders. |
| `Folders.InsertSoundIff` | api/src/domains/files.rs:2068-2089 | The insert keeps the forest sound exactly when its parent is then active in the project, or it is refused for an invalid name, a taken name or an unknown parent. |
| `Folders.WriteSoundIff` | api/src/domains/files.rs:2048-2244 | Each single write keeps a sound forest sound exactly when the folder it inserts under or places a file in is active then; the other writes always do. |
| `Folders.InterleavingsSoundIff` | api/src/domains/files.rs:2048-2420 | In whatever order the writes of requests come, the forest is sound at every moment exactly if every one of them was timely in this sense. |
| `Folders.LateInsertOrphans` | api/src/domains/files.rs:2056-2089 | A deletion covering the parent between the checks and the insert always breaks the forest. |
| `Folders.LateMoveStrands` | api/src/domains/files.rs:2390-2420 | A deletion covering the folder between the check of a move and its update always leaves the file in a deleted folder. |
| `Folders.RequestsAreWrites` | api/src/domains/files.rs:2048-2244 | A request served alone is at most two writes, all timely; a refused one is none. |
| `Folders.NoCycles` | api/src/domains/files.rs:2201-2239 | No folder lies below itself. |
| `Folders.ClosureIsSubtree` | api/src/domains/files.rs:2201-2239 | The recursive query finds exactly the active folders from which the way up leads to the start. |
| `Folders.DeleteTakesTheSubtree` | api/src/domains/files.rs:2192-2244 | Deleting deactivates exactly the subtree, detaches exactly the files in it, and changes nothing else. |
| `Folders.OccursOnce` | api/src/domains/files.rs:2437-2449 | The tree built for a parent contains a folder once if it lies below that parent, and else not. |
| `Folders.TreeListsEveryFolderOnce` | api/src/domains/files.rs:2295-2329 | The tree of a project lists every active folder exactly once, each under its parent. |
| `Folders.Database.MakeFolder` | api/src/domains/files.rs:2048-2089 | The checks in their order and the insert are one create request. |
| `Folders.Database.ChangeFolder` | api/src/domains/files.rs:2127-2159 | Rename and description as one request, refused as a whole on a bad or taken name. |
| `Folders.Database.RemoveFolder` | api/src/domains/files.rs:2192-2244 | The loop of the recursive query and the two updates are one delete request. |
| `Folders.Database.FolderTree` | api/src/domains/files.rs:2295-2329 | Reads each active folder of a project once and builds their tree. |
| `Sections.FirstFree` | api/src/domains/project_resources.rs:2109-2117 | The search for a new id ends at the first draw that is not taken, whenever one comes at all. |
| `Sections.DrawFree` | api/src/domains/project_resources.rs:2109-2117 | The loop over draws finds that first free one. |
| `Sections.EnoughExists` | api/src/domains/project_resources.rs:2109-2117 | For every body there are draws that suffice for it. |
| `Sections.ReserveIds` | api/src/domains/project_resources.rs:2060-2084 | The first pass collects exactly the valid ids of headings. |
| `Sections.NormalizeResourceSections` | api/src/domains/project_resources.rs:2058-2135 | The two passes compute the normalised body. |
| `Sections.EveryHeadingHasItsOwnId` | api/src/domains/project_resources.rs:2058-2135 | Every heading of the result has a valid id, and no two the same. |
| `Sections.FirstOccurrenceIsKept` | api/src/domains/project_resources.rs:2097-2115 | A heading keeps its id exactly when it is valid and no earlier heading carries it. |
| `Sections.OnlyIdsChange` | api/src/domains/project_resources.rs:2085-2135 | Other events, and the names and other attributes of headings, are unchanged; on a reader error everything is. |
| `Sections.NormalizeIsIdempotent` | api/src/domains/project_resources.rs:2058-2135 | Normalising again, with any draws that suffice, changes nothing. |
| `TimeAllocations.DifferencesApply` | api/src/domains/projects.rs:9881-9928 | Applying a recorded difference to what was before gives what came after, and reverting it leads back. |
| `TimeAllocations.DifferencesAreMinimal` | api/src/domains/projects.rs:9881-9910 | A difference mentions a field exactly when it differs, with both values. |
| `TimeAllocations.RunIsSound` | api/src/domains/projects.rs:10175-10537 | While every request is served alone, rows and snapshots are valid, entries carry their difference, and undo entries point back without repetition. |
| `TimeAllocations.LogReproducesTable` | api/src/domains/projects.rs:10337-10537 | While every request is served alone, the last entry about an allocation tells its tracked fields, or that it is gone. |
| `TimeAllocations.LogOnlyGrows` | api/src/domains/projects.rs:9930-9965 | The log is never rewritten. |
| `TimeAllocations.UndoneAtMostOnce` | api/src/domains/projects.rs:10181-10199 | While every request is served alone, no entry is undone twice, and no undo is undone. |
| `TimeAllocations.UndoBringsBack` | api/src/domains/projects.rs:10175-10335 | When an undo is accepted, and that it brings back exactly the fields from before, touching no other allocation. |
| `TimeAllocations.UndoInverts` | api/src/domains/projects.rs:10220-10276 | Undoing an update right after it leaves every row as it was. |
| `TimeAllocations.Database.CreateAllocation` | api/src/domains/projects.rs:10337-10409 | The checks in order, the insert and its entry are one create request. |
| `TimeAllocations.Database.UpdateAllocation` | api/src/domains/projects.rs:10411-10490 | The checks in order, the write and its entry are one update request. |
| `TimeAllocations.Database.DeleteAllocation` | api/src/domains/projects.rs:10492-10537 | The deletion and its entry are one delete request. |
| `TimeAllocations.Database.RestoreFromRecord` | api/src/domains/projects.rs:10175-10335 | The undo of each kind of entry, with its errors in order. |
| `TimeAllocationOutcomes.CreateStores` | api/src/domains/projects.rs:10337-10409 | An allocation is created exactly for clean fields, in a known project that takes writes, for a user who may hold it; the row and its entry hold those fields, texts trimmed. |
| `TimeAllocationOutcomes.UpdateStores` | api/src/domains/projects.rs:10411-10490 | An allocation is updated exactly when it is there, writable, the fields clean and the user allowed; row and entry hold the new fields, the entry also the old ones. |
| `TimeAllocationOutcomes.DeleteRemoves` | api/src/domains/projects.rs:10492-10537 | An allocation is deleted exactly when it is there and writable; the entry keeps its fields. |
| `TimeAllocationOutcomes.DeletionIsUndone` | api/src/domains/projects.rs:10277-10329 | Undoing a deletion right after it brings the row back with the same fields, under a new id. |
| `TimeAllocationOutcomes.UndoLogs` | api/src/domains/projects.rs:10175-10335 | An accepted undo logs what the row held, what it holds now, and which entry was undone. |
| `TimeAllocationOutcomes.CleansIffValid` | api/src/domains/projects.rs:9755-9788 | Validation passes exactly dates in order, hours above 0 and up to 24, a phase of up to 200 and a note of up to 500 characters once trimmed, and changes nothing else. |
| `TimeAllocationRuns.AloneIsServe` | api/src/domains/projects.rs:10175-10537 | The accesses of a request, with nothing in between, are the request served alone, result and store. |
| `TimeAllocationRuns.RowIsLastWrite` | api/src/domains/projects.rs:10337-10537 | In every interleaving a row holds what the last write of it put there. |
| `TimeAllocationRuns.LogTellsRowIff` | api/src/domains/projects.rs:10175-10537 | In every interleaving, at every moment, the log tells a row exactly if its last write put there what the last write seen by the last entry did. |
| `TimeAllocationRuns.LastWriterLogsLast` | api/src/domains/projects.rs:10411-10490 | The log tells a row if nobody wrote it after its last entry read it, above all if the request that wrote last logged last. |
| `TimeAllocationRuns.LogTellsRowIffCurrent` | api/src/domains/projects.rs:10411-10490 | Where no two writes of a row put the same, the log tells it exactly if the last entry was read after the last write. |
| `TimeAllocationRuns.UpdatesCross` | api/src/domains/projects.rs:10451-10490 | After any run, two updates may both succeed with the row holding the fields of the one and the log telling those of the other. |
| `TimeAllocationRuns.UpdateOutlivesDeletion` | api/src/domains/projects.rs:10451-10537 | After any run, an update and a deletion may both succeed with the row gone and the log telling the fields of the update, whatever they are. |
| `TimeAllocationRuns.UndoneTwiceIff` | api/src/domains/projects.rs:10181-10199 | In every interleaving an entry is undone twice exactly if two undos of it succeed and one checked before the other had logged. |
| `TimeAllocationRuns.UndosAreNotUndone` | api/src/domains/projects.rs:10181-10335 | In every interleaving what is undone is an earlier entry, and never an undo. |
| `TimeAllocationRuns.UndosCross` | api/src/domains/projects.rs:10278-10335 | After any run, two undos of one deletion may both succeed: two undo entries, and two rows with the same fields. |

## Left out

Device sessions:
- Names, platforms, client versions, IP addresses, user agents and last-seen times, and the listing of families.
- The shape of tokens and codes, their validators, and the keyed digest of user codes: malformed ones are not told apart from unknown ones.
- Key derivation, encryption and hashing themselves, and the JSON form of stored results.
- Changes to accounts and devices made by other files, other than a password change, deactivation and device revocation, which runs may contain at any point.
- The order in which the clean-up of authorizations picks its batch: any batch is allowed.
- Recovering an exchange still returns the first credentials of a family that was revoked meanwhile, as the source does; no token in them gets in afterwards.

Browser refresh:
- Cookies, password login and lock-out. A login is one step that inserts a session and a refresh row.

Files:
- Checksums, encryption envelopes, attachments and the references that forbid a deletion: a request to enqueue or archive a file may come at any time.
- The object store. Whether a deletion succeeds is an input; loading secrets and building the client are part of it.
- The validation of configuration input, credentials, the bucket inspection and the CORS rules.
- A file without configuration and an unreadable upload expiry: no access of the source writes either.
- FileRuns.EnqueueOutcome: does not count a failure of the database itself, because such a failure rolls back.

Folders:
- Reads that race with writes: the tree of a project is read at one moment, and interleaved requests are represented by their writes, whatever their checks had seen.
- Creating a file directly in a folder, which the source does without looking at the folder.
- The order of siblings: rows are read by id, which is their order of creation.

Section ids:
- The HTML sanitiser and the XML reader. The events of the body are the input, and a writer never fails.
- Sections.EnoughExists: does not cover bodies that need 10^80 ids or more, because ids are finitely many. Where no free id ever comes, the search of the source does not end.

Time allocations:
- Calendar dates are day numbers and hours are real numbers; the text forms and their validators are not part of this model.
- Entries of other kinds in the activity table: an entry is numbered by its place among those of time allocations.

Not modelled at all: work items and their completion ledger, saved views, SVG inlining, search, listing and pagination, RBAC, releases, and the web, desktop and command-line clients.
