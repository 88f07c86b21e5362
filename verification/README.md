# IdentityForge: accounts, sessions and tokens

A Dafny model of IdentityForge's account, session and token state machine, with proofs of what it keeps over
whole runs. `dafny verify dfyconfig.toml` checks everything.

## What is modelled

The state is what the services share: the user, session, refresh token, email verification token and password
reset token tables with their unique keys and the cascade from session to refresh token, the Redis map with its
expiry times, the refresh JWTs that the server has signed (claims `jti` and `exp`, sections 4.1.7 and 4.1.4 of
RFC 7519), and a clock.

Every call of the authentication, self-service and admin services exists twice. `Store.IdentityStore` is a class
whose methods read, check and write the tables and the cache in the order of the source, including the order of
the error checks, the undoing of a transaction that throws, and the statements that stand outside any
transaction. Beside it, `AuthService`, `UserService` and `AdminService` give each call as a function from state
to state and answer. The method's contract equates the two, so what is proved about the functions holds of the
class.

Three ways of running are proved about:

- **Whole requests** (`Requests`): each call is one step, at any later moment, with fresh random values. Used for
  counters, histories, one-time tokens, caches, status, and independence of users.
- **Interleaved requests** (`Interleaving`): login and rotation are a read and, later, one atomic commit, with
  any number of calls pending and every other call possible in between. Used for rotation and the session tables.
  The one-step login and rotation are proved equal to a read followed at once by its commit.
- **Interleaved Redis commands** (`RateLimiter`): INCR, EXPIRE and TTL of any number of requests in flight.

| file | contents |
|---|---|
| `Model` | tables, cache entries, tokens, settings, answers |
| `Grants` | the transactions on sessions and refresh tokens, and their one-to-one matching |
| `AuthService`, `UserService`, `AdminService` | each call as a function |
| `Requests` | calls as data, runs |
| `Purges`, `Interleaving`, `Rotation` | the six purges, the interleaved machine, single use of refresh tokens |
| `Directory`, `Passwords`, `Lockout`, `Verification`, `Resets`, `Lifecycle`, `Reactivation` | properties of accounts and one-time tokens |
| `Caching`, `CacheHits`, `Independence`, `Invariants`, `Lifetimes`, `Redemption` | cache against database, when exactly the cache answers, independence of users, all invariants together, when exactly refresh, reset and verification tokens work |
| `Chronicle`, `Outcomes`, `Answers`, `Sessions` | every column, outcome, answer and listed session from the log of answered requests |
| `Commits` | what a login or rotation writes that commits late |
| `RateLimiter`, `Windows`, `Throughput`, `Pagination`, `Routes`, `Labels`, `Arithmetic` | the request counter, its verdicts from arrival times alone, the requests it lets through, the admin listing, the metric labels, what a label shows of its path, division |
| `Store` | the services as a class |

## What the proofs turned up

- The stored expiry of a refresh token adds the setting as milliseconds, while the JWT and the cookie read it as
  seconds. The model keeps two expiries; no result claims that they coincide.
- Login marks every session as the current one and nothing unmarks it, so revoking a single session never
  succeeds (`Rotation.RevocationNeverSucceeds`).
- Self-deletion looks at `deletedAt`, admin deletion at the status. An account that was deleted and reactivated
  can never delete itself again, though an admin can (`Lifecycle.ReactivatedCannotDeleteItself`).
- A cached profile keeps its old role after a role change, and a cached admin view its old status after a
  self-deletion (`Caching.ProfileRoleGoesStale`, `Caching.AdminStatusGoesStale`). When exactly they are right is
  `Caching.ProfileAnswersAreRecent` (an even number of role updates since) and `Caching.AdminAnswersAreRecent` (no
  other status by self-deletion or verification since). Names in profiles and roles in admin views are always
  exact, and every answer is less than 300 seconds old.
- Only a reset stamps `passwordChangedAt`; changing the password does not (`Resets.StampRecordsResets`).
- `normalizeRoute` is not idempotent: the "d" of an inserted ":id" can begin another UUID
  (`Routes.NormalizingTwiceCanDiffer`). Which paths are affected is `Routes.IdempotentExactly`.
- If the request that owes the EXPIRE never gets to it, the address is refused for good
  (`RateLimiter.LostExpireBlocks`). That is the only way: a key is without an end exactly while one of the
  address's own requests owes the EXPIRE (`RateLimiter.EveryKeyEndsUnlessOwed`). The limiter's comment calls the
  window sliding or fixed; it is fixed, and it starts with the first request, so the bound over an interval has
  two windows to spare.
- That bound counts a request at its INCR. A request goes on only after EXPIRE and TTL, and when these are slow,
  requests counted long apart go on together: `Throughput.ThreeAtOnce` lets three through at one moment where
  the bound is two. When the bound holds for requests let through is `Throughput.ThroughputIsBoundedExactly`.
- A suspended, banned or deleted account whose address is still unverified can lift its own bar with a live
  verification token, but not after fifteen minutes (`Reactivation.OnlyAdminsReactivate`).
- Between login's read and its commit nothing looks at the account again: however late, the commit goes through,
  even for an account banned or deleted meanwhile (`Commits.LoginsCommitAsRead`).
- A refresh token that was traded in still logs its user out while its signature verifies, since logout does not look
  for its row (`Outcomes.LogoutEndsExactly`).
- Profile updates skip the explicit check for an empty username, but the unique index does not: only one account can
  hold it (`Outcomes.EditSucceedsExactly`).
- Unverified accounts may log in, rotation does not look at the account's status, and status DELETED is not
  final: both admins and email verification can make the account ACTIVE again. The results about barred
  accounts are stated accordingly.

## Model

| member | source | states |
|---|---|---|
| GrantTables.MintKeepsMatched | src/shared/utils/auth/refreshToken.ts:10-25 | signing a token under a fresh `jti` keeps sessions, token rows and signed tokens matched one to one |
| GrantTables.CreateKeepsMatched | src/modules/auth/auth.service.ts:298-315 | login's session and token row keep the one-to-one matching, with one owner throughout |
| GrantTables.RotateKeepsMatched | src/modules/auth/auth.service.ts:479-503 | trading a token row for its successor keeps the matching, and the session's expiry never beyond its token's |
| GrantTables.DropKeepsMatched | prisma/schema.prisma:119 | deleting any set of sessions with the cascade keeps the matching |
| GrantTables.PurgeIsTheCascade | src/modules/auth/auth.service.ts:987-999 | deleting the user's tokens first comes to exactly the cascade of deleting the sessions |
| GrantTables.LogoutIsTheCascade | src/modules/auth/auth.service.ts:370-382 | logout's deletion of a single token by hash ends in the same tables as a full purge of that user |
| GrantTables.PurgeIsExact | src/modules/auth/auth.service.ts:987-999 | after a purge the user has no session and no token, and any other user exactly those from before |
| Purges.AllPurgePathsAgree | src/modules/auth/auth.service.ts:780-811 | successful logout, reset, change, revoke-all, self- and admin deletion leave one and the same tables: nothing of the user, everything of everybody else |
| Purges.OtherCallsOnlyDrop | src/modules/user/user.service.ts:295-299 | every call but login and rotation changes sessions and tokens only by deleting a named set of sessions with their tokens |
| Interleaving.LoginReadKeepsCoherent | src/modules/auth/auth.service.ts:158-295 | login's read keeps tables and pending calls coherent |
| Interleaving.LoginCommitKeepsCoherent | src/modules/auth/auth.service.ts:298-327 | login's commit, succeeding or throwing, keeps tables and pending calls coherent |
| Interleaving.RefreshReadKeepsCoherent | src/modules/auth/auth.service.ts:413-476 | rotation's read keeps tables and pending calls coherent |
| Interleaving.RefreshCommitKeepsCoherent | src/modules/auth/auth.service.ts:479-503 | rotation's commit, succeeding or throwing, keeps tables and pending calls coherent |
| Interleaving.WholeLoginIsReadThenCommit | src/modules/auth/auth.service.ts:147-348 | login in one step equals its read followed at once by its commit |
| Interleaving.WholeRefreshIsReadThenCommit | src/modules/auth/auth.service.ts:406-514 | rotation in one step equals its read followed at once by its commit |
| Interleaving.StepKeepsCoherent | src/modules/auth/auth.service.ts:147-514 | every move of the interleaved machine keeps the matching and the facts that pending calls rely on |
| Rotation.SessionsAndTokensMatch | prisma/schema.prisma:81-129 | in every state that interleaved calls reach, each session has exactly one token row, each row a session, and both and the signed token name one user |
| Rotation.TradingRetires | src/modules/auth/auth.service.ts:480-484 | a token that was traded in has neither a row nor a pending call left |
| Rotation.AtMostOneTrade | src/modules/auth/auth.service.ts:479-503 | of any number of interleaved calls presenting one refresh token at most one commits |
| Rotation.TradedTokenIsRefusedForever | src/modules/auth/auth.service.ts:417-439 | after its trade a token is refused by every read in every continuation, at any time |
| Rotation.CommitSucceedsWhileTheRowIsThere | src/modules/auth/auth.service.ts:479-503 | a pending rotation's commit succeeds if and only if the presented token's row still exists |
| Rotation.PendingRotationDiesWithThePurge | src/modules/auth/auth.service.ts:479-503 | a rotation pending when its user's sessions are purged can never commit afterwards |
| Rotation.PurgeIsFinal | src/modules/auth/auth.service.ts:984-1008 | after a purge the user's sessions are only ones that logins commit later |
| Rotation.SessionsComeFromLogins | src/modules/auth/auth.service.ts:299-306 | no move but a committing login gives a user a new session, over whole runs |
| Rotation.RevocationNeverSucceeds | src/modules/user/user.service.ts:282-292 | in every reachable state revoking one session fails, with the error that the missing row, the owner or the flag calls for |
| Rotation.ListedSessionsAreBacked | src/modules/user/user.service.ts:197-220 | each listed session is backed by exactly one token row, of the same user and unexpired, after any number of rotations |
| Commits.LoginsCommitAsRead | src/modules/auth/auth.service.ts:295-327 | however many moves lie between a login's read and its commit, the commit goes through and writes its two rows with the expiry and `lastLoginAt` of the read, and nothing else |
| Commits.RotationsCommitAsRead | src/modules/auth/auth.service.ts:476-503 | a rotation that commits while the presented row is there replaces that row alone, by one that runs out a stored lifetime after the read, and touches the session |
| Sessions.SessionsStand | src/modules/auth/auth.service.ts:298-315 | at every moment of a run a session is there if and only if some login of its user answered it and nothing ended the user's sessions since; its row is that login's, last used at the last rotation of its token, and its token row is dated by the last of them |
| Sessions.SessionsAreListedExactly | src/modules/user/user.service.ts:190-229 | at any event of a run `getSessions` lists a session if and only if a login of that user opened it, no purge of the user came since, and less than a stored lifetime has passed; with the login's metadata and moment, and last used at the last rotation of its token or else at the login |
| Directory.NewcomersComeFromSignup | prisma/schema.prisma:45-56 | a new account is the one a signup asked for: role USER, PENDING_VERIFICATION, unverified, unlocked, with that password |
| Directory.UsernamesStayUnique | prisma/schema.prisma:35 | usernames stay unique through every call, the empty one included |
| Directory.StepKeepsDirectory | prisma/schema.prisma:38 | emails and usernames stay unique and the listing stays an exact ordering of the users, over whole-request runs |
| Chronicle.RowsAreAsTold | prisma/schema.prisma:29-60 | after any run every account holds in each column (names, username, role, status and all the moments) what the last answered request that gave it one gave it, and is verified once some token verified it |
| Chronicle.MembersJoined | src/modules/auth/auth.service.ts:84-107 | after any run an account is there if and only if some signup was answered with success for it |
| Chronicle.EmailsAreFromSignup | prisma/schema.prisma:38 | after any run an account's email is the one its signup gave |
| Outcomes.SignupSucceedsExactly | src/modules/auth/auth.service.ts:63-107 | in any run a signup succeeds if and only if no signup that succeeded before used that email |
| Outcomes.EditSucceedsExactly | src/modules/user/user.service.ts:45-92 | in any run a profile update succeeds if and only if the account exists and no other holds the given username as its last one, and a refusal names the reason |
| Outcomes.EditShows | src/modules/user/user.service.ts:75-95 | a `getMe` served after a profile update shows each name given and keeps each not given, and so does the update's own answer |
| Lockout.OnlyLoginMovesTheCounter | src/modules/auth/auth.service.ts:216-280 | without a password comparison for the account, its failure count and lock stand still |
| Lockout.StepKeepsLocks | src/modules/auth/auth.service.ts:251-261 | `lockUntil` is set exactly when the failure count has reached the limit, through every call |
| Lockout.AcceptedLoginSucceeds | src/modules/auth/auth.service.ts:298-327 | with fresh draws a login goes through if and only if its checks accept it |
| Lockout.FailureCounts | src/modules/auth/auth.service.ts:228-280 | a comparison that does not let in counts one failure, locks for a full period from the limit on, and answers accordingly |
| Lockout.OnlyGettingInClears | src/modules/auth/auth.service.ts:317-326 | only a successful login clears count and lock and stamps `lastLoginAt` |
| Lockout.CountIsExact | src/modules/auth/auth.service.ts:230-240 | over a run in which nobody gets in, the failure count grows by exactly the number of comparisons |
| Lockout.LockedExactly | src/modules/auth/auth.service.ts:215-261 | after any run an account is locked at a moment if and only if the comparisons since somebody last got in have reached the limit and the moment is before the last of them plus the lock period |
| Lockout.StepKeepsPaid | src/modules/auth/auth.service.ts:228-280 | each comparison beyond the limit has been paid for with a full lock period |
| Lockout.LockoutBound | src/modules/auth/auth.service.ts:216-280 | while nobody gets in, the comparisons for an account in any stretch number at most the limit plus one for each full lock period |
| Outcomes.LoginSucceedsExactly | src/modules/auth/auth.service.ts:158-327 | in any run a login succeeds if and only if some account signed up with that email, the password is the last one set for it, and its last status and the comparisons since somebody last got in let it in at that moment |
| Outcomes.LoginRefusals | src/modules/auth/auth.service.ts:174-223 | a login without an account, or for one that is deleted, suspended, banned or locked, fails with the first of these that applies, and changes nothing |
| Passwords.RunAppends | src/modules/auth/auth.service.ts:855-886 | over any run the present password is the last of the history, and no two neighbours are equal |
| Passwords.LoginAcceptsTheLastPassword | src/modules/auth/auth.service.ts:159-226 | after any possible run and at any later moment, the password that lets the account with an email in, while its status and lock do not bar it then, is exactly the last that signup, change or reset set |
| Passwords.ChangingNeedsTheLastPassword | src/modules/auth/auth.service.ts:855-873 | after any run a password change goes through if and only if it presents the last password set and a different new one |
| Outcomes.ChangeAnswersExactly | src/modules/auth/auth.service.ts:841-873 | in any run a password change answers with the first reason that applies: no account, wrong present password, same password; otherwise it succeeds |
| Verification.StepKeepsOneToken | src/modules/auth/auth.service.ts:613-637 | an unverified account has exactly one verification token and a verified one none, through every request |
| Verification.AlreadyVerifiedNeverHappens | src/modules/auth/auth.service.ts:555-560 | the "already verified" branch of `verifyEmail` is never taken |
| Verification.VerifiedForever | src/modules/auth/auth.service.ts:568-571 | a verified address stays verified over every run |
| Redemption.WaitsWhileOpen | src/modules/auth/auth.service.ts:613-637 | at every moment of a run a verification token is there if and only if it was mailed to the account, no other since, and did not verify yet |
| Redemption.VerificationSucceedsExactly | src/modules/auth/auth.service.ts:533-579 | in any run a token verifies an account's address if and only if it is the last one mailed to that account, at most fifteen minutes old, and did not verify before |
| Outcomes.VerifyAnswersExactly | src/modules/auth/auth.service.ts:533-560 | how `verifyEmail` answers at any event of a run: invalid unless the token is the last one mailed and unused, expired after fifteen minutes, else success |
| Outcomes.ResendSucceedsExactly | src/modules/auth/auth.service.ts:595-637 | in any run a resend succeeds if and only if the account exists and no token has verified it, and a refusal names which of the two failed |
| Verification.VerificationsAnswerARecentMail | src/modules/auth/auth.service.ts:83-104 | whenever a token verifies an address, signup or resend mailed that token to that user at most fifteen minutes before |
| Resets.StepKeepsOneUnused | src/modules/auth/auth.service.ts:686-706 | an account never has two unused reset tokens |
| Resets.AtMostOneUse | src/modules/auth/auth.service.ts:759-798 | over a whole run one reset token changes a password at most once, and a spent one never |
| Resets.ResetsNeedRequests | src/modules/auth/auth.service.ts:687-811 | at every point of a run, resets of an account plus its open token never exceed its requests plus the token open at the start |
| Redemption.UnusedWhileOpen | src/modules/auth/auth.service.ts:686-706 | at every moment of a run a reset token is unused if and only if a request issued it and no later request of the account and no use of it came since |
| Redemption.ResetSucceedsExactly | src/modules/auth/auth.service.ts:741-811 | in any run a token resets an account's password if and only if it is the last one issued to that account, unused, at most fifteen minutes old, and the new password is not the last one set |
| Redemption.SpentTokensRecordTheirUse | src/modules/auth/auth.service.ts:792-798 | after any run a reset token carries the stamp of a moment if and only if it reset a password at that moment |
| Outcomes.ResetAnswersExactly | src/modules/auth/auth.service.ts:741-780 | how `resetPassword` answers at any event of a run: invalid unless the token is the last one issued and unused, expired after fifteen minutes, refused for the same password, else success |
| Outcomes.ForgotReachesTheOwner | src/modules/auth/auth.service.ts:671-706 | in any run "forgot password" issues its token to the account that signed up with that email, whatever its status, to nobody else, and always answers with success |
| Resets.ResetsAnswerARecentRequest | src/modules/auth/auth.service.ts:694-706 | whenever a token changes a password, that token was issued for that account at most fifteen minutes before |
| Lifecycle.StatusMovesExactly | src/modules/admin/admin.service.ts:332-338 | a status moves only by verification, status update and the two deletions, only the target's, and only the deletions stamp `deletedAt` |
| Lifecycle.BlockedGainNoSession | src/modules/auth/auth.service.ts:184-223 | a deleted, suspended, banned or locked user gains no session by any call, and rotation keeps the user's set of sessions |
| Lifecycle.StepKeepsDeleted | src/modules/user/user.service.ts:148-170 | an account with status DELETED is stamped and owns neither a session nor a refresh token, through every request |
| Lifecycle.StampsAndStatusesOverRuns | src/modules/admin/admin.validator.ts:24-26 | over any run `deletedAt` is never cleared and no account becomes PENDING_VERIFICATION again |
| Lifecycle.SelfDeletionHappensOnce | src/modules/user/user.service.ts:136-145 | over a whole run an account deletes itself at most once, and never once it has been deleted by anybody |
| Lifecycle.SelfDeletionSucceedsExactly | src/modules/user/user.service.ts:121-170 | in any run a self-deletion succeeds if and only if the account exists and no self- or admin deletion of it succeeded before |
| Outcomes.AdminWritesSucceedExactly | src/modules/admin/admin.service.ts:209-249 | in any run an admin's role update, status update and deletion succeed if and only if the account exists and its last role or status differs, and a refusal names the reason |
| Lifecycle.ReactivatedCannotDeleteItself | src/modules/user/user.service.ts:136-145 | an account deleted and made ACTIVE again is refused its own deletion but not an admin's |
| Lifecycle.BlockedRequestsChangeNothing | src/shared/middlewares/authenticate.user.ts:37-69 | while a user stays barred every request of theirs for any call but the seven open ones fails, and the run ends in the same tables as without those requests |
| Lifecycle.ServedExactlyWhenEntitled | src/modules/admin/admin.routes.ts:245-250 | a request runs as its call if and only if the call is one of the seven open ones or the token's user exists, is not barred, and is an admin for the six admin calls; any other fails and changes nothing |
| Lifecycle.GateNamesTheReason | src/shared/middlewares/authenticate.user.ts:24-69 | every refusal of the gate names the first reason that applies: token, status, lock, role |
| Lifecycle.RequestsRunAsCalls | src/shared/middlewares/authenticate.user.ts:19-78 | a run of requests leaves the tables that the calls of the requests served leave, run one after the other |
| Lifecycle.BlockedNeverGainSessions | src/shared/middlewares/authenticate.user.ts:54-69 | while a user stays barred no run of requests by anybody adds to their sessions |
| Reactivation.LiftedExactly | src/modules/auth/auth.service.ts:563-572 | a request brings a suspended, banned or deleted account back if and only if it is an admin's update to ACTIVE or a verification of its address with a live token |
| Reactivation.OnlyAdminsReactivate | src/modules/admin/admin.service.ts:332-338 | after more than fifteen minutes in such a status, whatever was requested meanwhile, only an admin's update to ACTIVE brings the account back |
| Lifecycle.RolesAreGivenByAdmins | src/shared/middlewares/authenticate.admin.ts:24-39 | a role changes only by a request whose token belongs to an administrator who is not barred at that moment |
| Lifecycle.NoAdminOutOfNothing | src/modules/admin/admin.routes.ts:144-150 | from a store without administrators no sequence of requests makes one |
| Caching.WritersInvalidate | src/modules/admin/admin.service.ts:268-274 | a successful profile update and every purge drop the profile entry; a successful role update, status update or admin deletion the admin entry and every page |
| Caching.StepKeepsCacheExact | src/modules/user/user.service.ts:94-95 | cached roles in admin views and pages, and cached names in profiles, equal the database through every request |
| Caching.ServedFieldsAreExact | src/modules/auth/auth.service.ts:925-972 | what is served has the database's names, or the database's roles, whether cached or not |
| Caching.ProfileRoleGoesStale | src/modules/admin/admin.service.ts:269-274 | a role change does not reach a profile cached before it |
| Caching.AdminStatusGoesStale | src/modules/user/user.service.ts:177-178 | a self-deletion does not reach an admin view cached before it |
| Caching.RoleAfterChanges | src/modules/admin/admin.service.ts:229-249 | between any two events of a run a role is the same if and only if the successful role updates of that account in between are even in number |
| Caching.StatusIsTheLast | src/modules/admin/admin.service.ts:332-338 | while no admin writes to an account its status is the one that its last self-deletion or verification gave, or the one from before |
| Caching.ProfileAnswersAreRecent | src/modules/auth/auth.service.ts:920-973 | every answer of `getMe` is what the query of a `getMe` less than 300 seconds earlier returned, and its role is the database's if and only if the successful role updates since are even in number |
| Caching.AdminAnswersAreRecent | src/modules/admin/admin.service.ts:127-188 | every answer of `getUserById` is what the query of one less than 300 seconds earlier returned, with no admin's write since; its status is the database's if and only if the last self-deletion or verification since set that status, or there was none |
| Caching.PageAnswersAreRecent | src/modules/admin/admin.service.ts:34-116 | the same of `getAllUsers`, rows and counts together, with the condition for the status of every row |
| CacheHits.ProfileHitsExactly | src/modules/auth/auth.service.ts:925-962 | in any run a `getMe` is answered from the cache if and only if one was answered from the database less than 300 seconds earlier and nothing that drops the entry came since |
| CacheHits.AdminViewHitsExactly | src/modules/admin/admin.service.ts:132-177 | the same of `getUserById` |
| CacheHits.PageHitsExactly | src/modules/admin/admin.service.ts:48-103 | the same of `getAllUsers`, page by page |
| Answers.LoginsTell | src/modules/auth/auth.service.ts:282-347 | in any run a successful login answers the account's last names and username, its signup email and its last role, in view and claims alike, and a JWT under the fresh `jti` that ends the setting's seconds later |
| Answers.RotationsTell | src/modules/auth/auth.service.ts:464-512 | in any run a successful rotation answers claims with the signup email and the last role, and the successor JWT |
| Answers.UpdatesTell | src/modules/user/user.service.ts:75-102 | the answer of a profile, role or status update shows every field as the requests up to and including it told |
| Answers.ProfilesTell | src/modules/auth/auth.service.ts:920-973 | a `getMe` answered from the database shows every field as the requests before it told |
| Answers.AdminViewsTell | src/modules/admin/admin.service.ts:132-188 | the same of `getUserById` |
| Answers.ListingIsTheJoiners | src/modules/admin/admin.service.ts:66-68 | the listing is the accounts of the successful signups of the run, newest first |
| Answers.PagesTell | src/modules/admin/admin.service.ts:62-94 | a page answered from the database holds its window of those accounts, each row as the requests before told, with the exact totals and flags |
| Independence.OthersLeaveGrants | src/modules/auth/auth.service.ts:298-503 | a call about somebody else leaves a user's sessions, refresh tokens and signed tokens as they are |
| Independence.OthersLeaveOneTime | src/modules/auth/auth.service.ts:563-798 | a call about somebody else leaves a user's one-time tokens as they are |
| Independence.CallsInTwins | src/modules/auth/auth.service.ts:147-908 | a call about a user acts alike in any two states that agree on that user |
| Independence.AnswersInTwins | src/modules/auth/auth.service.ts:147-908 | a call about a user gets the same answer, names and cached views aside, in any two states that agree on that user |
| Independence.OthersDoNotMatter | src/modules/auth/auth.service.ts:147-1008 | striking every event about other users from a run is again a possible run, leaves the user's credentials, status, lock, role, sessions and tokens exactly the same, and gets the user's own calls the same answers |
| Invariants.ReachableStatesAreSound | src/modules/auth/auth.service.ts:43-1009 | after any possible run from the empty store all invariants above hold together |
| Lifetimes.RefreshSucceedsExactly | src/modules/auth/auth.service.ts:413-462 | with a fresh successor a rotation succeeds if and only if the token is signed, its row is there, and neither lifetime is over |
| Lifetimes.StandsWhileOutstanding | src/modules/auth/auth.service.ts:298-503 | at every moment of a run a token's row is there if and only if some login or rotation gave the token out and nothing since traded it in or ended its user's sessions |
| Lifetimes.RotationSucceedsExactly | src/modules/auth/auth.service.ts:406-514 | in any run a rotation succeeds if and only if its token was given out, neither traded in nor purged since, and is within both its stored and its JWT lifetime |
| Outcomes.RefreshRefusedExactly | src/modules/auth/auth.service.ts:413-462 | in any run a rotation is refused as an invalid JWT if its token was not given out with these claims or its JWT has ended, and otherwise as an invalid token if it was traded in, purged, or is past its stored lifetime |
| Outcomes.LogoutEndsExactly | src/modules/auth/auth.service.ts:359-394 | a logout always succeeds, and ends the sessions of a user if and only if its token was given out to that user with these claims and its JWT has not ended, traded in or not |
| Outcomes.NeverRefused | src/modules/auth/auth.service.ts:984-1008 | revoking all sessions and listing sessions succeed for every id |
| RateLimiter.StepKeepsGuarded | src/shared/middlewares/redisRateLimiter.ts:34-40 | a key without expiry whose request still owes the EXPIRE has exactly one such request |
| RateLimiter.StepPaysFromTheBudget | src/shared/middlewares/redisRateLimiter.ts:34-53 | each admitted request is paid for from what the key's present and coming lifetimes can admit |
| RateLimiter.RateBound | src/shared/middlewares/redisRateLimiter.ts:34-53 | counted at their INCR, at most max * (t / window + 2) requests of an address stay within the limit in any interval of length t, however the commands interleave |
| RateLimiter.LifetimeBound | src/shared/middlewares/redisRateLimiter.ts:35-53 | one lifetime of the key admits at most max |
| RateLimiter.LostExpireBlocks | src/shared/middlewares/redisRateLimiter.ts:38-40 | when the EXPIRE is lost the key never ends, and the address gets no more than what is left of it |
| RateLimiter.EveryKeyEndsUnlessOwed | src/shared/middlewares/redisRateLimiter.ts:35-40 | from the empty Redis, an address's key is without expiry if and only if one of its requests still owes the EXPIRE, and then exactly one does |
| RateLimiter.RedisRateLimiter.Handle | src/shared/middlewares/redisRateLimiter.ts:34-82 | one undisturbed request: the count, the expiry that only a first hit sets, the verdict and headers, and as reset the nearest second to the time left, -1 for a key without end |
| Windows.KeysAreAsTold | src/shared/middlewares/redisRateLimiter.ts:34-40 | over undisturbed requests an address's key holds the number of its requests since its last window began, and ends when that window does |
| Windows.AllowedExactly | src/shared/middlewares/redisRateLimiter.ts:34-53 | an undisturbed request passes if and only if it is among the first max of its address in a window, where windows follow from the arrival times alone |
| Throughput.EveryAdmittedPasses | src/shared/middlewares/redisRateLimiter.ts:35-82 | over any run the requests let through plus those still waiting equal those admitted plus those that waited at its start |
| Throughput.ThroughputBound | src/shared/middlewares/redisRateLimiter.ts:35-82 | counted when they are let through, after EXPIRE and TTL, at most max * (t / window + 2) requests pass in any interval of length t, plus those already in flight when it began |
| Throughput.ThroughputIsBoundedExactly | src/shared/middlewares/redisRateLimiter.ts:35-82 | every interval that begins now keeps to max * (t / window + 2) requests let through if and only if those in flight number no more than the present lifetime has used up (than max without a key, and max more before the EXPIRE) |
| Throughput.ThreeAtOnce | src/shared/middlewares/redisRateLimiter.ts:35-82 | a run with one request allowed a second in which three pass at one moment, against the bound of two |
| Pagination.FlagsAreExact | src/modules/admin/admin.service.ts:87-94 | `hasNextPage` exactly when page < totalPages, `hasPreviousPage` exactly when page > 1, nothing on later pages |
| Pagination.PagesPartitionTheListing | src/modules/admin/admin.service.ts:62-83 | pages 1 to totalPages concatenate to the ordered listing: every user once, in order, nobody else |
| Routes.SegmentsAreKept | src/shared/middlewares/metrics.middleware.ts:11-23 | the label has as many slashes as the path before '?' |
| Routes.LabelIsSettled | src/shared/middlewares/metrics.middleware.ts:19-22 | in the label no slash is followed by a digit or by sixteen token characters |
| Routes.OnlyIdsAreReplaced | src/shared/middlewares/metrics.middleware.ts:11-23 | the label equals the path before '?' if and only if that holds no UUID and no slash before a digit or sixteen token characters |
| Labels.LabelsMaskIds | src/shared/middlewares/metrics.middleware.ts:11-23 | the label is the path before '?', character by character, but for disjoint whole ids that have become ":id": UUIDs, and behind a slash numbers and token stretches of sixteen or more |
| Labels.CaseDoesNotMatter | src/shared/middlewares/metrics.middleware.ts:15-22 | ids are recognised in either case: the label of a lower-cased path is the lower-cased label |
| Routes.CollapseBothIsIdempotent | src/shared/middlewares/metrics.middleware.ts:19-22 | the second and third replacement together are idempotent |
| Routes.FirstPassLeavesUuid | src/shared/middlewares/metrics.middleware.ts:15-18 | after the UUID replacement a UUID is left if and only if some replaced one is directly followed by text that its "d" completes to another |
| Routes.CollapseKeepsUuids | src/shared/middlewares/metrics.middleware.ts:19-22 | on a text that is sheltered from it, a pass after slashes neither makes a UUID nor destroys one |
| Routes.IdempotentExactly | src/shared/middlewares/metrics.middleware.ts:11-23 | normalising twice is normalising once if and only if, in the part before '?', no replaced UUID is directly followed by text that its "d" completes to another |
| Routes.LeftOverUuid | src/shared/middlewares/metrics.middleware.ts:15-18 | text that completes a UUID from the "d" of an inserted ":id" defeats idempotence |
| Routes.NormalizingTwiceCanDiffer | src/shared/middlewares/metrics.middleware.ts:11-23 | a concrete path on which normalising twice differs from once |
| Store.IdentityStore.constructor | prisma/schema.prisma:29-155 | the empty store satisfies every invariant |
| Store.IdentityStore.DeleteSessions | prisma/schema.prisma:119 | deleting a user's sessions takes exactly their tokens along |
| Store.IdentityStore.Signup | src/modules/auth/auth.service.ts:53-134 | account and verification token together or not at all |
| Store.IdentityStore.Login | src/modules/auth/auth.service.ts:147-348 | the checks in order, then a counted failure or a session with its token, as the function says |
| Store.IdentityStore.CountFailure | src/modules/auth/auth.service.ts:228-280 | the two updates come to one: count, and lock at the limit |
| Store.IdentityStore.CommitLogin | src/modules/auth/auth.service.ts:297-327 | session, token and cleared counter together or not at all |
| Store.IdentityStore.Logout | src/modules/auth/auth.service.ts:359-394 | unverifiable tokens are ignored, others end all sessions of their user |
| Store.IdentityStore.Refresh | src/modules/auth/auth.service.ts:406-514 | the checks in order, then the trade, or an unchanged store when its transaction throws |
| Store.IdentityStore.VerifyEmail | src/modules/auth/auth.service.ts:524-585 | the checks in order, then the verified account without the token |
| Store.IdentityStore.ResendVerification | src/modules/auth/auth.service.ts:595-651 | old tokens go, one new token comes, and the deletion stays when the creation throws |
| Store.IdentityStore.ForgotPassword | src/modules/auth/auth.service.ts:662-719 | an unknown email is silently accepted; otherwise one new token replaces the unused ones |
| Store.IdentityStore.ResetPassword | src/modules/auth/auth.service.ts:731-820 | the checks in order, then password, spent token, purge and dropped profile |
| Store.IdentityStore.ChangePassword | src/modules/auth/auth.service.ts:832-908 | the checks in order, then password, purge and dropped profile |
| Store.IdentityStore.GetMe | src/modules/auth/auth.service.ts:920-973 | a live entry as it is, else the query's result, which is then cached |
| Store.IdentityStore.RevokeAllSessions | src/modules/auth/auth.service.ts:984-1008 | the purge and the dropped profile, for any id |
| Store.IdentityStore.UpdateProfile | src/modules/user/user.service.ts:34-103 | the given fields and no others, unless another account holds the username |
| Store.IdentityStore.MarkDeleted | src/modules/user/user.service.ts:148-170 | the deletion transaction: status, stamp and purge |
| Store.IdentityStore.DeleteAccount | src/modules/user/user.service.ts:114-179 | refused for a stamped account, otherwise deletion and dropped profile |
| Store.IdentityStore.GetSessions | src/modules/user/user.service.ts:190-229 | the user's unexpired sessions, all of them and no others |
| Store.IdentityStore.RevokeSession | src/modules/user/user.service.ts:241-306 | the checks in order, then that session and its tokens |
| Store.IdentityStore.GetAllUsers | src/modules/admin/admin.service.ts:34-116 | a live page as it is, else the queried one, which is then cached |
| Store.IdentityStore.GetUserById | src/modules/admin/admin.service.ts:127-188 | a live entry as it is, else the query's result, which is then cached |
| Store.IdentityStore.UpdateUserRole | src/modules/admin/admin.service.ts:200-277 | the checks in order, then the role and the dropped admin entries |
| Store.IdentityStore.UpdateUserStatus | src/modules/admin/admin.service.ts:289-366 | the checks in order, then the status and the dropped admin entries |
| Store.IdentityStore.DeleteUser | src/modules/admin/admin.service.ts:378-453 | refused for status DELETED, otherwise deletion and all entries dropped |
| Store.IdentityStore.FlushCache | src/modules/system/system.controller.ts:140-140 | every cached view goes, nothing else changes |
| Store.IdentityStore.Serve | src/modules/auth/auth.service.ts:43-1009 | any request does what its function says and keeps every invariant |
| Store.IdentityStore.AuthenticateUser | src/shared/middlewares/authenticate.user.ts:24-69 | the guards in order; passed if and only if there is a token whose user exists and is not deleted, suspended, banned or locked |
| Store.IdentityStore.AuthenticateAdmin | src/shared/middlewares/authenticate.admin.ts:22-39 | passed if and only if the user exists with the admin role |
| Store.IdentityStore.Receive | src/modules/admin/admin.routes.ts:55-55 | a request behind its middlewares keeps every invariant, refused or served |

## Left out

- Routing, cookies, response envelopes, logging, metrics, the email queue, mail templates and system probes: plumbing around the calls; queued mail is taken to change nothing.
- Bcrypt, SHA-256, JWT signing and the random generators: a hash verifies exactly its password, hashing is injective, a signature verifies exactly what was signed, and runs draw values that were never drawn before. Bcrypt's cut after 72 bytes is therefore not modelled.
- Access tokens: they are stateless, so only the `id` claim of a valid one appears; nothing is claimed about their end.
- The passing of time inside a request: a call sees one clock value, where the source reads the clock several times.
- Races other than those of login and rotation: every other call is one atomic step, so nothing is claimed about concurrent reset, resend or "forgot password" requests, about cache fills that race with a write, or about the two updates of a failed login coming apart.
- Independence.OthersDoNotMatter: does not cover names, username and cached views, nor whether revoking a session that is not the user's own finds one, because these do depend on other users.
- Lockout.LockoutBound: asks for a positive lock duration, because with none there is no bound of this form; settings are integers, and a limit below one acts as one.
- Pagination.PagesPartitionTheListing: takes page and limit as integers, although the controller lets fractions through, and fixes the listing order of users created at the same instant as latest first, because the query has no tie-breaker.
- RateLimiter.RateBound: assumes that the counters are not flushed in between and that the window is positive.
- Store.IdentityStore.FlushCache: clears the cached views; the counters of the rate limiter, which the source's flush clears too, are a separate machine here.
- Store.IdentityStore.Login: the access token appears as its claims, without its expiry.
- Reactivation.OnlyAdminsReactivate: takes it from the controllers that a signed-in call's user is the owner of its access token.
- Store.IdentityStore.GetSessions: does not model the order of the answer, which is that of `lastUsedAt`.
- Columns that no service writes (OAuth provider, avatar, `emailVerifiedAt`, `revoked`, country, city), a null password, and the deletion of user rows, which no service performs.
- The change of representation of cached values as JSON text; a cached view is the value itself.
- Surrogate keys of token rows: the unique token hash serves as the key.
- Redis at the very instant of an expiry: an entry is gone from that instant on.
- Zod parsing: its results are taken as the types of the arguments.
