# A model of the hotel backend's sessions, lockout, tenancy and user administration

The backend is a multi-tenant service. This project models its four stateful mechanisms in Dafny and
proves what they guarantee over every run, concurrent runs included:

1. **Refresh-token sessions.** A login opens a token family; each refresh consumes a token and issues
   the next; a token presented twice, a refused user or a logout revokes the family. A refresh is not
   one transaction, so `SessionProtocol` takes every repository call as one atomic step and every
   request as a program counter with its locals, and a run is any sequence of events. The same
   requests are modelled a second time as code that updates the store in place (`AuthServices.dfy`,
   `RefreshTokensStore.dfy`), and `SoloRuns` proves that the two agree.
2. **The login lockout.** Redis counters with a time to live, the repository and the service that
   update them in place, and runs of attempts: whole, on many identities, and call by call.
3. **Tenant isolation.** Row policies over a session variable, transactions on pooled connections, and
   the path of a request from its header through the guards to its transactions.
4. **User administration.** Creation, update, the last-admin rule, where permissions come from, and
   the paged list.

## Where the definitions come from

Paths are relative to the repository; the tables and steps below are plain definitions, and the
members in the model table are what is proved about them.

| definitions | source |
|---|---|
| `Tokens` (payload, `TryVerify`, `Sign`, `ExpiresAtOf`) | backend/src/auth/refresh-token.service.ts 35-60, 114-157 |
| `TokenTable` (rows, and the five statements as functions on the table) | backend/src/auth/refresh-tokens.repository.ts 27-88; migration 20260819130153_refresh_tokens |
| `SessionProtocol` (`Step`: one repository call of one request) | backend/src/auth/refresh-token.service.ts 31-112; backend/src/auth/auth.service.ts 32-105 |
| `SessionCalls` (the same requests taken whole) | the same |
| `RedisCounters` (`Incremented`, `TtlReset`, `CountOf`) | backend/src/redis/redis.service.ts 40-61 |
| `LoginThrottle` (`IsLocked`, `AfterFailure`, `Attempt`, `KeyFor`) | backend/src/auth/login-throttle.service.ts 19-50; backend/src/auth/login-attempts.repository.ts 11-35; backend/src/auth/auth.service.ts 38-54 |
| `TenantIsolation` (`Policy`, `Transact`, `Step`) | backend/src/common/tenant/tenant-prisma.service.ts 32-54; migration 20260812150000_rls_nullif_empty_context |
| `RequestPipeline` (`Resolve`, `TenantGuard`, `Admit`) | backend/src/common/tenant/tenant.middleware.ts 14-21; backend/src/auth/guards/tenant.guard.ts 27-58; backend/src/common/tenant/tenant-context.service.ts 21-29 |
| `UserAdmin`, `AdminInvariant` (`Created`, `Updated`, `Outcome`, `Step`) | backend/src/users/users.service.ts 41-129; backend/src/users/users.repository.ts 73-102; backend/src/auth/permissions.ts 10-44 |
| `Paging` (`OrderBy`, `FindPage`, `SkipFor`, `HasMore`) | backend/src/users/users.repository.ts 52-65; backend/src/common/http/page-request.ts 1-8; backend/src/common/http/paginated-result.ts 6-17 |

Each of these definitions has its meaning proved in plain terms: `CallMeanings`, `ReadBack`, and the
lemmas `VerifiesIff`, `RecordedMeans`, `AdmitMeans`, `OutcomeMeans` and `PageMeans` speak of columns,
claims and fields alone.

## Assumptions

- A UUID that is drawn has not been drawn before. The session proofs need nothing else of randomness.
- SHA-256 has no collisions, and a token verifies only if it was signed with the refresh secret: a
  signed token carries its secret, and a digest carries its token.
- The clock never goes back. Token expiry is compared in whole seconds, as jsonwebtoken does it.
- The lockout limits are positive, as `backend/src/config/env.validation.ts` requires. A refresh
  lifetime of zero is allowed: `expiresAtOf` then may throw, and this is modelled. Only
  `RefreshAloneSucceedsIff`, which promises a usable token, and `HeldLands` ask for a positive one.
- A Redis key exists up to its deadline, and in the millisecond of the deadline itself.
- An account never changes tenant and is never deleted; no code path does either.

## What the proofs say that the code does not

- **One right per family.** The invariant behind rotation is written nowhere in the code: live rows
  plus requests between a successful `claim` (or `startFamily`) and their `create` are at most one per
  family (`OneRightPerFamily`).
- **Reuse and logout, end to end.** A refresh with a used token, or a logout, that runs alone leaves
  the session no live row, and the family dead if and only if no rotation was in flight
  (`ReuseEndsSession`, `LogoutEndsSession`).
- **Revocation and concurrency.** `revokeFamily` takes out the live row but not a rotation that has
  already claimed. Revocation is permanent if and only if nothing that can still store a row is in
  flight for the family at that moment (`RevocationIsPermanentIff`); `RevocationMeetsRotation` is a run
  in which something is.
- **A redundant write.** The `revokeFamily` after a failed user check never finds a live row, in any
  interleaving: the claim has ended the session already (`RevokingARefusedUserIsRedundant`).
- **Pruning.** Deleting expired rows changes no answer to whole requests (`PruningIsInvisible`). Step
  by step it can: a prune between the calls of another request can cost a refresh its claim, so that
  it revokes the family as if the token had been reused, or a logout its look-up, so that it revokes
  nothing while a later token of the session stays usable. Both occur (`ClaimMeetsPrune`,
  `LogoutMeetsPrune`), each under an exact condition (`ClaimLostToPruneIff`, `LogoutLostToPruneIff`),
  and over whole interleaved runs these are the only ways: the protocol and one that never deletes
  keep all requests alike if and only if neither happens (`InterleavedPruningIff`), as in every run
  that claims and looks up rows before they expire (`PromptRunsLoseNothing`).
- **The lockout's window bound.** With M attempts allowed, a window as long as the lockout holds at
  most max(1, 2M - 2) failed password checks without a success in it, and some run attains this
  (`FailedChecksPerWindow`, `BoundIsAttained`). Each success in the window adds at most M.
- **The last-admin rule is not unconditional.** Two concurrent updates can both count two admins
  (`TwoDemotionsCanTakeTheLast`), and one count at a time is not enough either, because the target is
  read before the count (`StaleTargetCanTakeTheLast`). It holds when at most one demoting or
  deactivating update at a time is between its first read and its write
  (`AnAdminAlwaysRemains`); `LastAdminCanGoIff` says exactly which pending writes can break it.
- **One's own role.** Nobody deactivates themselves, in any interleaving, but an update that names the
  role one had when it was read can undo a change of role made meanwhile
  (`NobodySwitchesThemselvesOff`, `StaleSelfUpdateRestoresRole`).
- **One database per tenant.** A tenant's transactions do and answer, in every interleaving, what they
  would on a database of its own that has no policies (`PoliciesGivePrivateDatabases`).
- **Shared ids.** Unique constraints look across tenants, so noninterference needs ids and hashes that
  no two tenants share (`TenantsDoNotInterfere`, and `SharedIdsInterfere` for the need). A statement
  betrays another tenant exactly when it inserts an id or key that only the other's row holds
  (`StatementIsPrivateIff`). That a tenant's rows are out of reach of other tokens needs no such
  assumption (`TokensConfine`).
- **Paging under writes.** Users created during a walk of the pages cannot make it skip anybody who
  was there when it began, wherever the order puts them (`NobodyIsSkipped`).

Where comments and code differ, the model follows the code: the comment of `RedisService` says that it
only powers the health check, but the lockout counts in it; the comment of `TenantMiddleware` calls
`TenantGuard` planned, but it is there; the comment of `UsersService.update` speaks of a role change,
but naming the role a user already has re-seeds its defaults too.

## Model

| member | source | states |
|---|---|---|
| Tokens.ExpiryTestsAgree | backend/src/auth/refresh-token.service.ts:122-145 | The exp claim has passed, in whole seconds, exactly when the stored expiresAt is not after now |
| Tokens.VerifiesIff | backend/src/auth/refresh-token.service.ts:122-131 | A token verifies exactly when it was signed with the refresh secret, is a refresh token, and its exp's millisecond has not been reached |
| Tokens.SignedVerifiesUntil | backend/src/auth/refresh-token.service.ts:39-48 | A signed token verifies, to the user and tenant it was signed for, for its lifetime and no longer |
| TokenTable.FindByHash | backend/src/auth/refresh-tokens.repository.ts:36-55 | A row found is in the table and has that tenant and hash; none found means there is none |
| TokenTable.FoundIsUnique | backend/prisma/migrations/20260819130153_refresh_tokens/migration.sql:15-16 | Under the unique hash index the lookup finds the one row with that hash |
| RefreshTokensStore.RefreshTokensRepository.Create | backend/src/auth/refresh-token.service.spec.ts:39-50 | Appending a row to the array is the INSERT on the keyed table |
| RefreshTokensStore.RefreshTokensRepository.FindByHash | backend/src/auth/refresh-token.service.spec.ts:52-61 | The linear search finds what the lookup by tenant and hash finds |
| RefreshTokensStore.RefreshTokensRepository.Claim | backend/src/auth/refresh-token.service.spec.ts:63-72 | Compare-and-set: it succeeds exactly when the tenant's row is unrevoked, and then revokes that row only |
| RefreshTokensStore.RefreshTokensRepository.RevokeFamily | backend/src/auth/refresh-token.service.spec.ts:74-84 | The loop revokes exactly the family's unrevoked rows in the tenant and leaves earlier revocation times |
| RefreshTokensStore.RefreshTokensRepository.DeleteExpiredForUser | backend/src/auth/refresh-token.service.spec.ts:86-99 | The backward splice loop removes exactly the user's expired rows |
| AuthServices.RefreshTokenService.Issue | backend/src/auth/refresh-token.service.ts:35-61 | In place: sign, prune the user's expired rows, insert the new row, or throw before the insert without an expiry |
| AuthServices.RefreshTokenService.Consume | backend/src/auth/refresh-token.service.ts:63-89 | In place: the five outcomes of consume, the reuse branch revoking the family |
| AuthServices.RefreshTokenService.RevokeSession | backend/src/auth/refresh-token.service.ts:91-105 | In place: a verified, stored token's family is revoked; anything else changes nothing |
| AuthServices.AuthService.Login | backend/src/auth/auth.service.ts:32-72 | Whoever is signed in is stored in the tenant with that email, active, and gave the right password; the answer holds their claims and profile. Anyone else, the inactive included, is refused and costs one failure; a locked identity changes nothing |
| AuthServices.AuthService.FindByEmailWithSecret | backend/src/users/users.repository.ts:111-115 | Finds the one account of the tenant with the email, active or not, if there is one |
| AuthServices.StartLoginIff | backend/src/auth/auth.service.ts:44-60 | The protocol lets a login start exactly for a stored account of the tenant that is active, which is whom Login signs in |
| AuthServices.AuthService.IssueSession | backend/src/auth/auth.service.ts:96-116 | The access token's claims are the user's, and the refresh token is the one issue() stored |
| AuthServices.AuthService.Refresh | backend/src/auth/auth.service.ts:74-90 | For an accepted token it answers, with the user's claims, if and only if the user is stored in the session's tenant and active; otherwise, and for a used token, the family is left without a live row |
| AuthServices.AuthService.Logout | backend/src/auth/auth.service.ts:92-94 | In place: revokes the token's family |
| CallMeanings.ConsumeMeans | backend/src/auth/refresh-token.service.ts:63-89 | A token is consumed if and only if its row is unexpired at the check and unrevoked, and that row is then revoked at the write; a used token revokes its family; anything else changes nothing |
| CallMeanings.IssueMeans | backend/src/auth/refresh-token.service.ts:35-61 | The token carries the user, tenant and expiry of the sign reading, the prune takes what expired before the prune reading, and the row stored is the token's, live; with an exp of zero nothing is stored |
| CallMeanings.LogoutMeans | backend/src/auth/refresh-token.service.ts:91-105 | Exactly the unrevoked rows of the presented token's family are revoked, its own row expired or used as it may be |
| CallMeanings.RefreshMeans | backend/src/auth/auth.service.ts:74-90 | A refresh answers if and only if its token is accepted and its user is in the session's tenant and active; for any other user, and for a used token, the family is closed |
| SoloRuns.SoloRefreshIsTheCall | backend/src/auth/auth.service.ts:74-90 | A refresh whose steps run with nothing in between leaves the table and gives the answer of the whole call |
| SoloRuns.SoloLogoutIsTheCall | backend/src/auth/refresh-token.service.ts:91-105 | The same for logout |
| SoloRuns.SoloLoginIsTheCall | backend/src/auth/auth.service.ts:57-60 | The same for a login from its accepted credentials on |
| Rotation.RefreshRotates | backend/src/auth/auth.service.ts:74-90 | A refresh of a usable token with an active user answers a usable token of the same session and spends the old one |
| Rotation.RefreshAloneSucceedsIff | backend/src/auth/auth.service.ts:74-90 | From every reachable state, an undisturbed refresh succeeds, and rotates, if and only if its token is usable and its user active |
| EndOfSession.ReuseEndsSession | backend/src/auth/refresh-token.service.ts:75-82 | From every reachable state, an undisturbed refresh with a used token answers nothing and leaves no live row in the family, which is dead if and only if no rotation was in flight |
| EndOfSession.LogoutEndsSession | backend/src/auth/refresh-token.service.ts:91-105 | The same for an undisturbed logout with any stored token, used or not |
| ProtocolInvariants.SourcedStep | backend/src/auth/refresh-token.service.ts:39-58 | Every step keeps: rows, claims and requests in progress come from created rows and signed tokens |
| ProtocolInvariants.DistinctStep | backend/src/auth/refresh-token.service.ts:43-58 | Every step keeps row ids and tokens unrepeated, in history and in requests about to insert |
| ProtocolInvariants.ExclusiveStep | backend/src/auth/refresh-tokens.repository.ts:57-65 | Every step keeps at most one live row or request in flight per family, never both |
| ProtocolInvariants.OneSessionStep | backend/src/auth/refresh-token.service.ts:84-88 | Every step keeps each family with one tenant and one user, the pending revocations included |
| ProtocolInvariants.RowsBelongToTheirTokens | backend/src/auth/refresh-token.service.ts:39-58 | In every reachable state rows repeat the tenant, user and expiry of their tokens, and a family's rows are of one session |
| SessionSafety.OneRightPerFamily | backend/src/auth/auth.service.ts:74-105 | In every reachable state, live rows plus requests in flight of a family number at most one |
| SessionSafety.OneUsableToken | backend/src/auth/refresh-token.service.ts:63-89 | Two tokens of one family that consume would accept now are the same token |
| SessionSafety.SingleUse | backend/src/auth/refresh-tokens.repository.ts:57-65 | Over every run a token is consumed at most once, was issued, and stays revoked while stored |
| SessionSafety.RowsAreConserved | backend/src/auth/refresh-token.service.ts:63-89 | Rows ever created in a family, plus the one in flight, are at most one more than its successful claims |
| SessionSafety.DeadFamilyStaysDead | backend/src/auth/refresh-token.service.ts:75-82 | A family with no live row and nothing in flight never again gets a live row, a new row or an accepted token |
| Revocation.NoLiveRowAfterRevoke | backend/src/auth/refresh-tokens.repository.ts:67-77 | In any interleaving the update leaves the family no live row, though it names the tenant of the token only |
| Revocation.RevocationIsPermanentIff | backend/src/auth/refresh-token.service.ts:75-82 | After a revocation the family never has a live row again if and only if no request that can still store one is in flight for it |
| Revocation.HeldLands | backend/src/auth/refresh-token.service.ts:139-145 | With a positive lifetime every request in flight can still store its row |
| Scenarios.RevocationMeetsRotation | backend/src/auth/auth.service.ts:74-94 | A reachable state in which a logout is about to revoke a family whose rotation is past its claim |
| Revocation.RevokingARefusedUserIsRedundant | backend/src/auth/auth.service.ts:81-87 | The revocation after a failed user check changes no row, whenever it runs |
| Deactivation.AtMostOneMoreRow | backend/src/auth/auth.service.ts:77-89 | While a user stays inactive, each existing family gets at most one more row, and only from a request past the check |
| Deactivation.RowsArePending | backend/src/auth/auth.service.ts:77-89 | While a user stays inactive, rows created for the user in all families are at most the accepted logins and requests past the check at the start |
| Deactivation.InactiveUserIsRefused | backend/src/auth/auth.service.ts:77-89 | A refresh that claims after the deactivation is refused, and from the check on its family is dead |
| TokenChain.FamiliesAreChains | backend/src/auth/refresh-tokens.repository.ts:79-88 | In every reachable state expiries never decrease along a family, its stored rows are the end of the chain, and only the last may be live |
| RevocationTimes.RevocationTimesAreTrue | backend/src/auth/refresh-tokens.repository.ts:57-77 | In every run a row's revocation time is the clock of the step that found it unrevoked and revoked it |
| RevocationTimes.RevocationTimeStays | backend/src/auth/refresh-tokens.repository.ts:57-77 | Once set, it never changes while the row is stored |
| SessionIsolation.SessionsAreIndependent | backend/src/auth/refresh-token.service.ts:52-58 | Requests on other families never change, remove or add an unexpired row of this one, though pruning is per user |
| PruningRefinement.ConsumeAlike | backend/src/auth/refresh-token.service.ts:63-89 | Consume answers alike on tables that agree on unexpired rows, and keeps the agreement |
| PruningRefinement.PruningIsInvisible | backend/src/auth/refresh-token.service.ts:52-58 | Every sequence of whole requests is answered alike by the store that prunes and the one that never deletes |
| InterleavedPruning.InterleavedPruningIff | backend/src/auth/refresh-tokens.repository.ts:79-88 | In every interleaved run, pruning and never deleting keep all requests alike if and only if no claim that would succeed and no logout look-up meets a pruned row; then answers, unexpired rows and history agree |
| InterleavedPruning.PromptRunsLoseNothing | backend/src/auth/refresh-token.service.ts:71-75 | Nothing is lost where claims and look-ups are of rows that have not expired |
| InterleavedPruning.ClaimLostToPruneIff | backend/src/auth/refresh-token.service.ts:71-82 | A prune just before a claim turns it into the reuse branch if and only if they are of one user and the row has expired since it was checked |
| InterleavedPruning.LogoutLostToPruneIff | backend/src/auth/refresh-token.service.ts:91-104 | A prune just before a logout's look-up leaves it nothing to revoke if and only if they are of one user and the row has expired since the token was verified |
| Scenarios.ClaimMeetsPrune | backend/src/auth/refresh-token.service.ts:71-82 | A reachable state in which a prune turns a claim into the reuse branch |
| Scenarios.LogoutMeetsPrune | backend/src/auth/refresh-token.service.ts:91-104 | A reachable state in which a prune makes a logout revoke nothing, and the session's later token stays usable |
| RedisCounters.RedisService.IncrementWithTtl | backend/src/redis/redis.service.ts:40-48 | One more than the live count, the deadline set only when the key has none; zero and no change when EXEC discards the commands |
| RedisCounters.RedisService.Count | backend/src/redis/redis.service.ts:50-53 | The stored number, or zero for a missing or expired key |
| RedisCounters.RedisService.ResetTtl | backend/src/redis/redis.service.ts:55-57 | A live key's deadline restarts; a missing key stays missing |
| LoginThrottle.LoginThrottleService.AssertNotLocked | backend/src/auth/login-throttle.service.ts:19-24 | Locked exactly when the live count has reached the limit |
| LoginThrottle.LoginThrottleService.RecordFailure | backend/src/auth/login-throttle.service.ts:26-38 | Counts one failure and, at the limit, restarts the deadline; a failure whose count was discarded is forgotten |
| LoginThrottle.LockedIff | backend/src/auth/login-throttle.service.ts:19-24 | Locked exactly when the counter still exists and has reached the limit |
| LoginThrottle.RecordedMeans | backend/src/auth/login-throttle.service.ts:26-38 | A failure leaves one more than the counter that still existed; the first one, and each that reaches the limit, starts a whole lockout, and in between the deadline stays |
| LoginThrottle.AttemptMeans | backend/src/auth/auth.service.ts:38-54 | No password is checked while locked, a success deletes the counter, a failure is recorded |
| ThrottleWindow.RoomStep | backend/src/auth/login-throttle.service.ts:19-38 | Each failure in a window uses up room the counter leaves before the window ends; only a success refills it |
| ThrottleWindow.FailedChecksPerWindow | backend/src/auth/login-throttle.service.ts:19-38 | In every run, a window no longer than the lockout, or a millisecond longer, holds at most max(1, 2M - 2) failed checks, plus M for each success in it |
| ThrottleWindow.BoundIsAttained | backend/src/redis/redis.service.ts:40-48 | Whatever the limits, a run with no success attains that bound |
| ThrottleBudgets.SharedCounterIff | backend/src/auth/login-attempts.repository.ts:33-35 | Two identities share a counter exactly when tenant, folded email and address agree, colons allowed in the address only |
| ThrottleBudgets.ColonsCanCollide | backend/src/auth/login-attempts.repository.ts:33-35 | With a colon in a tenant or an email, two different identities share a counter |
| ThrottleBudgets.RunsProject | backend/src/auth/login-attempts.repository.ts:33-35 | A run of many identities, seen from one, is the run of the attempts that agree with it in tenant, folded email and address |
| ThrottleBudgets.WindowBoundPerIdentity | backend/src/auth/login-throttle.service.ts:19-42 | The window bound holds for each identity's attempts whatever the others do in between |
| ThrottleInterleaving.SoloAttemptIsTheCall | backend/src/auth/auth.service.ts:38-54 | An attempt whose Redis calls run with nothing in between leaves the counter of the whole attempt |
| ThrottleInterleaving.OvershootIsBounded | backend/src/auth/auth.service.ts:38-54 | With at most k attempts between check and verdict, the counter never exceeds maxAttempts + k - 1 |
| ThrottleInterleaving.OvershootIsAttained | backend/src/auth/auth.service.ts:38-54 | For every k some run reaches that value |
| ThrottleInterleaving.QuietTimeUnlocks | backend/src/redis/redis.service.ts:40-57 | More than a lockout without a recorded failure unlocks, from every reachable state |
| ThrottleInterleaving.LockEndsOnlyBy | backend/src/auth/login-throttle.service.ts:19-42 | A lock ends only at its deadline or by a success that was past the check before the lock |
| TenantIsolation.IdleConnectionSeesNothing | backend/prisma/migrations/20260812150000_rls_nullif_empty_context/migration.sql:1-14 | In every run, a statement on a connection between transactions finds, changes and inserts nothing, the variable unset or reverted |
| TenantPrisma.TenantPrismaService.WithTenant | backend/src/common/tenant/tenant-prisma.service.ts:44-54 | Setting the variable, letting the callback choose each statement from the replies so far, and committing or rolling all of it back is the transaction of the model |
| ReadBack.SelectMeans | backend/prisma/migrations/20260819130153_refresh_tokens/migration.sql:37-41 | A look-up finds exactly the tenant's rows that meet its condition |
| ReadBack.InsertMeans | backend/prisma/migrations/20260819130153_refresh_tokens/migration.sql:11-41 | An insert adds the row if it is the tenant's and its id and key are new, and else fails |
| ReadBack.UpdateMeans | backend/prisma/migrations/20260819130153_refresh_tokens/migration.sql:37-41 | An update changes the data of exactly the tenant's rows that meet its condition, and fails if it would give one away |
| ReadBack.DeleteMeans | backend/prisma/migrations/20260819130153_refresh_tokens/migration.sql:37-41 | A delete removes exactly the tenant's rows that meet its condition |
| ReadBack.SameTransactionReadsBack | backend/src/common/tenant/tenant-prisma.service.ts:44-54 | A look-up after a statement of the same transaction finds what the statement wrote, and it is committed |
| ReadBack.LaterTransactionReadsBack | backend/src/common/tenant/tenant-prisma.service.ts:44-54 | So does a look-up in the tenant's next transaction, on any connection, whatever other tenants do in between |
| ReadBack.AllOrNothing | backend/src/common/tenant/tenant-prisma.service.ts:48-53 | A transaction changes nothing unless every statement went through and the callback did not throw |
| Noninterference.TenantsDoNotInterfere | backend/src/common/tenant/tenant-prisma.service.ts:44-54 | A tenant's rows and replies are those of the run with all other tenants' transactions removed |
| PrivateDatabases.StatementIsPrivateIff | backend/prisma/migrations/20260819130153_refresh_tokens/migration.sql:37-41 | A tenant's statement does and replies what it would without policies on the tenant's rows alone, if and only if it is no insert whose id or key only another tenant's row holds |
| PrivateDatabases.OtherStatement | backend/prisma/migrations/20260819130153_refresh_tokens/migration.sql:37-41 | A statement in any other context leaves the tenant's rows alone |
| PrivateDatabases.PoliciesGivePrivateDatabases | backend/src/common/tenant/tenant-prisma.service.ts:6-18 | Over every run a tenant's rows and replies are those of its transactions, in order, on a private database without policies |
| Noninterference.SharedIdsInterfere | backend/prisma/migrations/20260819130153_refresh_tokens/migration.sql:11-16 | With an id two tenants share, removing the other tenant's work changes a reply |
| RequestPipeline.Request.ResolveTenant | backend/src/common/tenant/tenant.middleware.ts:14-21 | The first header value becomes the request's tenant; an empty or missing one leaves it |
| RequestPipeline.Request.Handle | backend/src/auth/guards/tenant.guard.ts:27-58 | Admits to a tenant if and only if the header names it and the route is public or the token is that tenant's; each rejection has its own exact condition |
| RequestPipeline.AdmitMeans | backend/src/common/tenant/tenant-context.service.ts:21-29 | The same of middleware, guards and context lookup as a function of header, route and token |
| RequestPipeline.AdmittedBegins | backend/src/common/tenant/tenant-prisma.service.ts:32-53 | An admitted request that asks for a transaction on an idle connection gets it, in the tenant it names |
| RequestPipeline.TokensConfine | backend/src/auth/guards/tenant.guard.ts:44-57 | In every run of non-public requests, a tenant for which no token was issued keeps its rows and gets no transaction, whatever the others insert |
| RequestPipeline.HandlersStayWithTheirToken | backend/src/common/tenant/tenant-prisma.service.ts:32-37 | In every run, a non-public request's transaction reads and writes only rows of its own token's tenant |
| UserAdmin.UsersService.Create | backend/src/users/users.service.ts:41-53 | The new user is active, has the named role or is staff, and the named list or that role's defaults; no active admin is lost |
| UserAdmin.UsersService.Update | backend/src/users/users.service.ts:60-82 | The four refusals in order, else the fields named and re-seeded defaults; an active admin is left if there was one, and the actor's own account keeps its role and stays active |
| UserAdmin.OutcomeMeans | backend/src/users/users.service.ts:60-129 | Which refusal is given, exactly, in the fields of update, target and actor; otherwise which fields the target gets, and that no other user changes |
| UserAdmin.RoleDefaultsMean | backend/src/auth/permissions.ts:10-44 | An admin's defaults are every permission, a manager's all but editing the network, staff's two, none twice |
| UserAdmin.UpdateKeepsAnAdmin | backend/src/users/users.service.ts:111-129 | With nothing in between, an update that goes through leaves an active admin |
| AdminInvariant.SoloUpdateIsTheCall | backend/src/users/users.service.ts:60-82 | An update whose load, count and write run with nothing in between is the update taken whole |
| AdminInvariant.GuardedStep | backend/src/users/users.service.ts:60-82 | With one demotion at a time, every step keeps an active admin beside the demotion's target once it is approved |
| AdminInvariant.AnAdminAlwaysRemains | backend/src/users/users.service.ts:111-129 | Over every such interleaved run an active admin remains |
| AdminInvariant.LastAdminCanGoIff | backend/src/users/users.service.ts:77-81 | Some order of pending writes leaves no active admin if and only if each active admin is the target of an approved demotion |
| AdminInvariant.TwoDemotionsCanTakeTheLast | backend/src/users/users.service.ts:123-128 | Two updates that both count two admins can leave none |
| AdminInvariant.StaleTargetCanTakeTheLast | backend/src/users/users.service.ts:65-77 | An update that counted nobody, its target promoted since, can take the last admin with one counted update |
| AdminInvariant.NobodySwitchesThemselvesOff | backend/src/users/users.service.ts:89-104 | In every interleaved run nobody's own update deactivates them, and it changes their role if and only if it names the role they had when read and that has changed since |
| AdminInvariant.StaleSelfUpdateRestoresRole | backend/src/users/users.service.ts:65-77 | A run in which it does: an admin made staff meanwhile is made an admin again |
| PermissionProvenance.AccountedStep | backend/src/users/users.service.ts:73-77 | Every step keeps a user's permissions explained by the last change that named a list or a role |
| PermissionProvenance.PermissionsAreAccountedFor | backend/src/users/users.service.ts:41-82 | Over every run, a permission beyond the role's defaults was named in a list, with no list or role named since |
| Paging.OrderBySorts | backend/src/users/users.repository.ts:57-58 | With distinct ids the order newest first, then id, is strict |
| Paging.PageIgnoresStorageOrder | backend/src/users/users.repository.ts:46-65 | A page is the same however the rows are stored, because the id breaks ties |
| Paging.PageMeans | backend/src/users/users.repository.ts:52-65 | A page repeats the request, counts everybody, and is the stretch of the order after the pages before it |
| Paging.HasMoreIff | backend/src/common/http/paginated-result.ts:14-16 | There is more exactly when the next page has somebody on it |
| Paging.WalkListsEveryone | backend/src/common/http/paginated-result.ts:14-16 | Following hasMore from page one ends and lists every user exactly once, newest first, the higher id first among equals |
| Paging.NobodyIsSkipped | backend/src/users/users.repository.ts:52-65 | Whatever users are created meanwhile, a walk that ends has met every user who was there when it began |

## Left out

- AuthServices.AuthService.Login: bcrypt's verdict, and whether Redis executes the count of a failure, are parameters, because both are decided outside this code.
- FailedChecksPerWindow: takes an attempt whole at one clock reading, its count executed, because concurrent attempts have the other bound, OvershootIsBounded.
- TenantsDoNotInterfere: the statements of one transaction are not interleaved with those of another; isolation levels are PostgreSQL's and not modelled. A callback issues a bounded number of statements.
- HandlersStayWithTheirToken: says nothing of what a public handler does under the header's tenant; refresh and logout set the tenant from the verified token instead and belong to the session model.
- Failed logins are not steps of the session protocol: they write no token row. They are steps of the lockout.
- JWT, SHA-256 and bcrypt internals, and how `JWT_REFRESH_EXPIRES_IN` is parsed into seconds. An access token is its claims.
- Redis connection errors and retries; an answer lost after the commands were executed.
- `toLowerCase` is a parameter of the key function, so that no property depends on how it folds letters.
- Explicit JSON nulls for optional fields of a DTO, and phone numbers; email uniqueness on creation is left to the database.
- PermissionsGuard, roles on routes, DTO validation, logging, health checks, the response envelope and the exception filter: single-branch plumbing.
- The foreign keys and cascades of the token table; users and tenants are never deleted by the code.
- Guests, conversations, messages, tickets and devices: tables without behaviour yet. Their policies are the same predicate.
