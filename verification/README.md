# HSA verification model

A Dafny model of HSA, a home authentication service: users join by invitation along a chain of trust that starts at
one root, log in with passkeys, hold refresh tokens that rotate, and get back the wrapped keys they registered with.
`dafny verify dfyconfig.toml` checks the whole project.

## What is modelled

**The service over its database** (`Basics`, `Domain`, `TrustTree`, `Tables`, `Transactions`, `History`, `Runs`,
`Environment`, `Sessions`, `RegistrationSteps`, `InviteSteps`, `LoginSteps`, `Service`). Invites, credentials and
refresh tokens are objects changed in place; users and wrapped keys are values. A storage object holds the committed
tables and at most one open transaction, and a list of faults decides which of its requests fail. The use cases are
methods with the branches of the source. A ghost log holds what each call committed, and the invariant of the service
says that the database always is the state of that log, so what is proved of every run (modules `History` and `Runs`)
holds after any sequence of calls with any failures. No statement about runs constrains the clock.

**Transactions interleaved statement by statement** (`Interleaving`; `TokenInterleaving`, `TokenIndexes`,
`TokenSerial`, `TokenLineages`, `TokenRevocations`; `CredentialInterleaving`). Registration and invite creation with
their row and advisory locks; the writers of refresh tokens and of credentials with unlocked, stale reads. Run alone,
the transactions of each of them do what the use cases do.

**The generated router** (`RouteTable`, `Router`): a prefix trie written out twice, against a table of templates.

**Three loops with a simple meaning** (`Strings`, `ForwardedFor`; `IdPool`; `ErrKit`, `ErrGroup`): the scan of
X-Forwarded-For, the pooled identifier generator, and the error accumulator with its task group.

**What the specifications mean.** Where a method is proved equal to a function, the function itself is described once
more by the columns, bits or characters it is about, so that a wrong definition would not go unnoticed. These lemmas
are the end of a line and nothing builds on them. For the tables: `Tables.UpsertInviteKeepsIndex`,
`UpsertCredentialKeepsIndex`, `UpsertTokenKeepsIndex`, `RevocationByRow`, `CountedExactly`, `Domain.StoredKeyColumns`,
`TrustTree.InviterByRow`, `UsedInviteHasUser`. For the events: `History.SessionColumns`, `RegisteredRows`,
`LoggedInRows`, `CloneSuspectedRows`, `RefreshedRows`, `PlainEventRows`, `ReferencesByRow`. For the answers of use
cases: `RegistrationSteps.InviteAnswerByRow`, `RegistrableByRows`, `Service.SessionAnswerByRow`. For the storage:
`Transactions.StatementOutside`, `QueryAnswers`, `Beginning`, `Sequencing`. For the rest:
`ForwardedFor.CandidateByEntry`, `RemoteAddrByForm`, `ErrKit.FormatByOperand`, `Router.Server.AnsweredUnderPrefix`.

## What the proofs found

- **Registration needs deferred foreign keys.** The redeemed invite is saved with `used_by` before the user row is
  inserted (internal/application/finish_invite_registration.go:163-193), and
  internal/infrastructure/storage/schema.sql:42 declares that reference without `DEFERRABLE`. The model takes the time
  of checking as a parameter, `deferForeignKeys`. Everything is proved for both values. `RegistrationSteps.AdmitUser`
  shows that with immediate checking the body fails, `Service.Service.Guarantees` that then no second user and no
  credential is ever stored, and `RegistrationSteps.Registrable` is the condition under which a registration goes
  through.
- **One key per scope.** The index at internal/infrastructure/storage/schema.sql:96-97 makes a registration with two
  keys of the same scope fail; the model has this as part of `Registrable`.
- **A reused refresh token revokes nothing in the end.** The revocation joins the transaction that the error then
  rolls back; `Service.Service.ValidateRefreshToken` states it as a fact of the open transaction and
  `RefreshAccessToken` that nothing is committed.
- **Two refreshes can fork a lineage.** The lookup by hash takes no lock, so two transactions that read one token both
  commit, and both successors are live (`TokenLineages.TwoRefreshesForkALineage`). No lineage ever has two live tokens
  exactly if every refresh that commits presented a token that is still live then or whose lineage is dead
  (`TokenLineages.LineagesForkExactly`).
- **A revocation misses what is committed after its lookup.** A session refreshed or issued between the lookup and the
  commit of a revocation of all sessions of its user is left (`TokenRevocations.SessionSlipsThrough`). None is left
  exactly if none was so committed and is still active (`RevocationMissesExactly`).
- **A refresh can revive a session that was ended.** If it read the token before, it commits a live successor
  (`TokenRevocations.RefreshRevivesDeadLine`). A dead lineage stays dead exactly if no refresh commits that had read
  one of its tokens before (`DeadLineStaysExactly`).
- **A stale login can clear a revocation or lower the counter.** Saving a credential writes both columns from an
  object read without a lock (`CredentialInterleaving.StaleLoginClearsRevocation`, `OvertakenLoginLowersCounter`). A
  revocation lasts exactly if no login that had read the row before it is committed as accepted
  (`RevocationLastsExactly`). The counter never falls exactly if no login commits after another, since its lookup,
  committed a higher one (`CounterNeverFallsExactly`, and `RuleKeptExactly` for the rule on accepted counters). A
  committed revocation of a token, in contrast, is never undone in any schedule
  (`TokenInterleaving.RevocationIsPermanent`).
- **Appending can lose errors.** An operand that contains an accumulator without being one is replaced by the
  accumulator's members (`ErrKit.KeptExactly`, `ErrKit.JoinedErrorLost`). A task that returns a nil `*Error` makes
  `Wait` return a non-nil error without members (`ErrGroup.NilAccumulatorFailsGroup`): the result is nil exactly if no
  error value was ever submitted.

## Assumptions

- The clock never runs back, identifiers and token hashes are never drawn twice, no identifier is nil and no hash
  empty (`Environment.Runtime.Valid`). The random bytes of `IdPool` are arbitrary.
- An error joined with that of a failed rollback is still found by whoever looks for it, as `errors.Is` does, and the
  use cases are stated by the error found. A commit that fails leaves nothing behind. A statement that fails inside a
  transaction makes the server refuse the rest of it.
- The answers of the passkey library, the signer and the token generator are parameters or fault oracles; access
  tokens are the pair of user and role they assert. Identifiers are numbers, the nil UUID being 0; the invalid network
  address is the empty string. `netip` parsing and containment and the meaning of white space are parameters.
- The order in which a query returns rows is not specified; loaded tokens come in any order.

## Model

The lines of internal/infrastructure/storage/schema.sql are cited where a row depends on an index or a reference.

| member | source | states |
|---|---|---|
| TrustTree.ChainsDescend | internal/application/finish_invite_registration.go:262-277 | Following inviters always leads to earlier rows: no user is its own ancestor, on any table that is a tree. |
| TrustTree.InviteeKeepsTree | internal/domain/user/user.go:79-84 | Adding an invitee with the role its inviter hands out keeps one tree in which exactly depths 0 and 1 are admins. |
| TrustTree.RolesByPlace | internal/domain/user/user.go:79-84 | In such a tree the admins are exactly the root and the users it invited. |
| TrustTree.RegistrationKeepsTrust | internal/application/finish_invite_registration.go:163-193 | Redeeming an unused, unexpired invite for a new user of its creator keeps the tree and the bijection between used invites and invited users. |
| TrustTree.InvitesAndUsers | internal/application/finish_invite_registration.go:238-277 | Every user but the first came by exactly one invite: used by it in time, at the time it was created, and issued by its inviter. |
| TrustTree.LevelCounts | internal/infrastructure/storage/pg/query.sql.go:301-316 | The k-th working table of the recursive query holds every user at distance k below the start exactly once. |
| TrustTree.LevelsRunOut | internal/infrastructure/storage/pg/query.sql.go:301-316 | On a tree no round from the number of users on finds a row, so the query ends. |
| TrustTree.UnionIsSubtree | internal/infrastructure/storage/pg/query.sql.go:301-316 | Once a round is empty, the union of all rounds is the subtree of the start user, every id exactly once and nobody else. |
| TrustTree.ListDescendants | internal/infrastructure/storage/pg/query.sql.go:318-336 | The query run round by round ends on every tree and returns the subtree, start included, without duplicates. |
| TrustTree.CyclesNeverRunOut | internal/infrastructure/storage/pg/query.sql.go:301-316 | On two rows that invited each other every round is non-empty: without the tree the query would not end. |
| TrustTree.SubtreeEmptyIffUnknown | internal/infrastructure/storage/user_repository.go:42-54 | The subtree is empty exactly if the start user is unknown, which is when the use case answers not found. |
| TrustTree.SubtreeByInviter | internal/infrastructure/storage/pg/query.sql.go:301-316 | A user is in the subtree exactly if it is the start or its inviter is in it. |
| Domain.User.New | internal/domain/user/user.go:34-55 | Refuses exactly the nil id, the nil inviter and the unknown role; a user so made is never a root. |
| Domain.Invite.New | internal/domain/invite/invite.go:32-56 | A fresh, unused invite expiring after its ttl, unless an id or the hash is empty. |
| Domain.Invite.Redeem | internal/domain/invite/invite.go:68-80 | Marks an invite used once, in time; a refused call changes nothing and says which check failed first. |
| Interleaving.AllowedIssueStaysWithinLimit | internal/domain/invite/policy.go:11-19 | An invite the policy allows for the count at the clock reading leaves its creator with at most the maximum of open invites, then and at every later time. |
| Tables.NewInviteCounts | internal/infrastructure/storage/pg/query.sql.go:15-21 | A new open invite of the creator raises its count by one; a used one, one that expires at the time or before, and one of another creator leave it. |
| InviteSteps.ExpiredInvitesDoNotCount | internal/application/create_invite.go:56-70 | A stored creator whose invites are all used or expired gets a new one under every policy that allows any. |
| Domain.CounterDecisionIsWebAuthnRule | internal/domain/credential/credential.go:88-94 | For all pairs of 32-bit counters the decision equals the signature-counter step of section 7.2 of Web Authentication Level 2. |
| Domain.Credential.SetSignCount | internal/domain/credential/credential.go:88-94 | Stores the new counter exactly when it is accepted, otherwise reports a regression and changes nothing. |
| Domain.Credential.Revoke | internal/domain/credential/credential.go:81-87 | Revokes once; a second call is an error that changes nothing. |
| Domain.RefreshToken.Revoke | internal/domain/session/session.go:83-89 | Revokes once; a second call is an error that changes nothing. |
| Domain.RefreshToken.Rotate | internal/domain/session/session.go:91-110 | The successor keeps user, device, address and expiry; only id, hash and creation time are new, and it is unrevoked. |
| Domain.StoredKeyReadsBack | internal/infrastructure/storage/wrapped_key_repository.go:57-81 | A key survives being stored and read back exactly if its scope is one of the two that the constructor allows. |
| Transactions.InsideNothingCommits | internal/infrastructure/storage/transaction.go:15-21 | No program run inside an open transaction changes the committed store or ends that transaction, however deeply it nests. |
| Transactions.OutermostIsAllOrNothing | internal/infrastructure/storage/transaction.go:23-60 | For every program and every pattern of faults and panics: the committed store is the final store of the body if it returns nil and the commit succeeds, and the store before otherwise; when that is, which error the caller finds, and that it is joined with another exactly if the rollback fails. |
| Transactions.NestedIsInlined | internal/infrastructure/storage/transaction.go:15-18 | A nested call means the same as its body: erasing all inner transactions changes no outcome and no store. |
| Transactions.OnlyOutermostMatter | internal/infrastructure/storage/transaction.go:15-60 | Of every program on every connection only the outermost transaction calls matter: flattening all others changes no outcome and no store. |
| Transactions.SwallowedFailureCommitsNothing | internal/infrastructure/storage/transaction.go:48-60 | A body that goes on after a failed statement still commits nothing, and the caller gets an error. |
| Transactions.Storage.Run | internal/infrastructure/storage/transaction.go:15-60 | The storage object, running any program through its begin, commit and rollback, does what the semantics says. |
| Transactions.Storage.Exec | internal/infrastructure/storage/transaction.go:62-67 | A statement works on the transaction of the context if there is one, and by itself otherwise; a failed one spoils the transaction. |
| Transactions.StatementInside | internal/infrastructure/storage/transaction.go:62-67 | In a transaction a failed statement changes nothing and spoils it, a spoilt one takes no other, a successful one has exactly its effect, and none commits. |
| History.StepKeepsInv | internal/infrastructure/storage/schema.sql:3-97 | Every operation keeps the tree, the bijection, all references, all unique indexes and the bounds on the number of keys. |
| Tables.InsertUserKeepsIndexes | internal/infrastructure/storage/schema.sql:3-14 | An insert is refused exactly if two users would have one id or there would be two roots. |
| Tables.CopyKeepsIndexes | internal/infrastructure/storage/schema.sql:79-97 | A copy of keys is refused exactly if two keys would have one id, or one credential and scope. |
| History.RunKeepsInv | internal/application/finish_invite_registration.go:163-193 | In every state of every run: one tree with roles by depth; used invites and invited users in bijection through `used_by`, with equal times within the expiry; every reference resolves. |
| History.RegisteredKeys | internal/application/finish_invite_registration.go:298-315 | A registration stores its keys for its own credential and for no other. |
| Runs.RunKeepsLineages | internal/application/session_issuer.go:134-206 | In every serial run the tokens split into disjoint lineages that cover them all, share user, device, address and expiry, and have at most the newest unrevoked. |
| Runs.RefreshWithinLifetime | internal/domain/session/session.go:79-110 | However often a lineage was rotated, a refresh succeeds only before its issue time plus the refresh lifetime. |
| Runs.TokensPersist | internal/infrastructure/storage/pg/batch.go:22-37 | Along a run token rows stay, keep their columns, and a revoked one stays revoked. |
| Runs.ChainRevocationIsComplete | internal/application/revoke_compromised_chain.go:32-66 | After a chain revocation no token that was stored for the subtree is valid then or later in the run; all other rows are unchanged by it. |
| Runs.CountersRise | internal/domain/credential/credential.go:88-94 | The counters accepted for a credential over a run are a block of zeros followed by a strictly increasing sequence, and the last is the one stored. |
| Runs.LaterLoginCountsHigher | internal/domain/credential/credential.go:88-94 | Of any two logins of one credential in a run the later brings a higher counter, unless the earlier brought zero. |
| Runs.SuspectedCredentialNeverLogsIn | internal/application/finish_login.go:197-199 | A credential revoked on suspicion of a clone is never accepted again in that run. |
| Runs.CloneRevocationIsComplete | internal/application/finish_login.go:204-225 | After a suspected clone no token stored for its user is valid from the clock reading on, in every continuation of the run; the tokens of all others are unchanged by it. |
| Runs.KeysRoundTrip | internal/infrastructure/storage/wrapped_key_repository.go:22-55 | In every later state the keys read back for a credential are exactly the ones its registration supplied, between one and the configured maximum. |
| Runs.ImmediateForeignKeysAdmitOnlyTheRoot | internal/infrastructure/storage/schema.sql:36-49 | With foreign keys checked statement by statement no registration can ever be committed: no run stores a second user, a credential, a session or a used invite. |
| Environment.RowsUpdateInPlace | internal/infrastructure/storage/pg/batch.go:22-37 | Upserting copies of stored tokens with `revoked_at` set changes that column of exactly those rows. |
| Sessions.Descendants | internal/infrastructure/storage/user_repository.go:42-54 | Returns the subtree of a user, or not found for an unknown one. |
| Sessions.FindActiveByUserIDs | internal/infrastructure/storage/session_repository.go:46-59 | Rebuilds one object for each unrevoked, unexpired token of the users, and no other. |
| Sessions.FindByTokenHash | internal/infrastructure/storage/session_repository.go:24-33 | Finds the row with the hash, or says not found exactly when there is none. |
| Sessions.ExecBatch | internal/infrastructure/storage/pg/batch.go:75-89 | Every statement of the batch is sent whatever became of those before, the first error is the one reported, and without one all rows were upserted in order. |
| Sessions.FirstErrorIsReported | internal/infrastructure/storage/session_repository.go:61-87 | The error of a batch is that of the first statement that failed, and the statements behind it were sent as well. |
| Sessions.Save | internal/infrastructure/storage/session_repository.go:61-87 | Saves the current state of all tokens as one batch, or fails. |
| Sessions.RevokeEach | internal/application/revoke_all_user_sessions.go:66-75 | The revoke loop over the active tokens never meets an already revoked one, and revokes all. |
| Sessions.SavingRevokesActive | internal/application/revoke_all_user_sessions.go:51-87 | Saving revoked copies of exactly the active rows equals revoking the active rows of those users in the table. |
| Sessions.RevokeAllUserSessions | internal/application/revoke_all_user_sessions.go:37-104 | Revokes exactly the active tokens of the users at the clock reading, joining an open transaction; without faults it cannot fail. |
| Sessions.Issue | internal/application/session_issuer.go:71-132 | Adds exactly one live token with a fresh id and hash for the user, device and address, and signs the user with the role its row has; without faults it fails exactly for the nil user or the invalid address. |
| Sessions.AccessByPlace | internal/application/session_issuer.go:57-69 | In the chain of trust the role signed is admin exactly for the root and the users it invited. |
| Sessions.RotationSaved | internal/application/session_issuer.go:161-182 | Saving the spent token and its successor revokes the one and adds the other and changes nothing else. |
| Sessions.Rotate | internal/application/session_issuer.go:134-206 | Revokes exactly the presented token and adds exactly one successor with its expiry; without faults it cannot fail. |
| RegistrationSteps.RedeemInvite | internal/application/finish_invite_registration.go:238-260 | Answers not found, used and expired in that order, and otherwise stores the invite as used by the new user at that time, unless a foreign key is checked at once and fails. |
| RegistrationSteps.FindInviteCreator | internal/application/finish_invite_registration.go:215-236 | Finds the user who created the invite, or says so. |
| RegistrationSteps.CreateUser | internal/application/finish_invite_registration.go:262-277 | Stores a user below the creator with the role the creator hands out; a nil id is an invalid argument and a stored id a violated constraint. |
| RegistrationSteps.CreateCredential | internal/application/finish_invite_registration.go:279-295 | Stores a credential with a fresh id and the reported counter; an empty id or key is an invalid argument and a taken external id a violated constraint. |
| RegistrationSteps.KeyIterator.Next | internal/infrastructure/storage/pg/copyfrom.go:18-28 | Skips nothing on the first call and one row on each later one; true while a row is ahead. |
| RegistrationSteps.Drain | internal/infrastructure/storage/pg/copyfrom.go:18-40 | The cursor hands every row to the copy once and in order. |
| RegistrationSteps.SaveWrappedKeys | internal/application/finish_invite_registration.go:298-315 | Stores one row per input, in order, with fresh ids, or none: an invalid input and two inputs of one scope are told apart. |
| RegistrationSteps.AdmitUser | internal/application/finish_invite_registration.go:163-181 | Redeeming and adding the user succeeds only if constraints are deferred, and then leaves the invite used by the new child of its creator; otherwise the error of the first step that must fail. |
| RegistrationSteps.DistinctScopesNeeded | internal/infrastructure/storage/schema.sql:96-97 | Keys of one credential can be stored together only if no scope occurs twice. |
| RegistrationSteps.PiecesAreRegistration | internal/application/finish_invite_registration.go:163-193 | The separate writes of a registration together are its one effect on the tables. |
| RegistrationSteps.RegisterInTx | internal/application/finish_invite_registration.go:160-197 | Without faults the transaction body gives exactly one answer for every table, input and clock reading, and the stated effect on success; with faults, that answer or a fault. |
| InviteSteps.CountActiveByUser | internal/infrastructure/storage/invite_repository.go:58-73 | Counts the unused invites of the user that expire after the given time. |
| InviteSteps.CreateInviteInTx | internal/application/create_invite.go:56-86 | Counts, asks the policy, draws a code and saves: the answer for every outcome of each step. |
| LoginSteps.FindCredential | internal/application/finish_login.go:186-202 | Finds the credential with the external id; tells unknown and revoked apart. |
| LoginSteps.HandleClone | internal/application/finish_login.go:204-225 | Revokes the credential in the same transaction as the sessions of its user, none of which is valid at the next clock reading or later. |
| LoginSteps.FindWrappedKeys | internal/infrastructure/storage/wrapped_key_repository.go:39-55 | Returns the keys stored for the credential; on reachable tables there is always one, so not found is never the answer. |
| LoginSteps.WrappedKeysToOutput | internal/application/finish_login.go:87-97 | The loop returns scope, key and algorithm of every key, in order. |
| LoginSteps.LoginInTx | internal/application/finish_login.go:127-171 | The body ends in an acceptance with a token pair for the role in the row of the credential's user, in a handled clone with no session valid from the clock reading on, or in an error, each with its exact condition. |
| Service.Service.Finish | internal/infrastructure/storage/transaction.go:48-60 | Ending the transaction of a use case records its effect if and only if it commits; every state of the database stays the state of a run. |
| Service.Service.Guarantees | internal/infrastructure/storage/schema.sql:3-97 | After any calls with any failures the database is a tree with matching invites, resolved references, bounded key counts and proper lineages. |
| Service.AnswerOf | internal/application/refresh_access_token.go:103-149 | The answer over the one row with the hash: reuse if it is revoked, even when it has expired as well; invalid if it has expired; none otherwise; not found without a row. |
| Service.Service.ValidateRefreshToken | internal/application/refresh_access_token.go:103-149 | Without faults: not found without a row, reuse for a revoked one, invalid for an expired one, and the token otherwise. With reuse, every token of the owner is revoked or expired at the clock reading, as a fact of the open transaction only. No such answer is given wrongly when something fails. |
| Service.Service.RefreshAccessToken | internal/application/refresh_access_token.go:50-101 | All or nothing: success revokes exactly the presented row and adds one with its user, device, address and expiry, and the access token names that user with the role in its row; on every error, the one for reuse included, nothing is committed. Without faults, exactly which answer, over the rows; with faults, never a wrong one. |
| Service.Service.RevokeSession | internal/application/revoke_session.go:34-95 | Only the owner can revoke a session, which sets its `revoked_at` and nothing else; revoking it again succeeds and changes nothing; an unknown session and one of somebody else are told apart. |
| Service.Service.RevokeUsersSessions | internal/application/revoke_all_user_sessions.go:37-104 | Called outside a transaction it sets `revoked_at` of exactly the unrevoked, unexpired tokens of the users, or commits nothing. |
| Service.Service.RevokeCompromisedChain | internal/application/revoke_compromised_chain.go:32-66 | Commits the revocation of every active token in the subtree of the user, or nothing; not found exactly for unknown users. |
| Service.Service.BootstrapRoot | internal/application/bootstrap_root.go:30-52 | Stores a root exactly when there is no user, and otherwise returns the existing root with an error. |
| Service.Service.CreateInvite | internal/application/create_invite.go:49-108 | Commits one unused invite expiring after the ttl, within the policy at the clock reading, or nothing. Without faults, exactly which answer, over the invite rows; used and expired invites do not count; with faults, never a wrong refusal. |
| Service.Service.FinishInviteRegistration | internal/application/finish_invite_registration.go:137-212 | Commits one registration with the given keys, returning tokens for the new user and the role in its row, or nothing; the checks before the transaction in their order. Without faults, exactly which answer, over the rows; with faults, never a wrong one. |
| Service.Service.Login | internal/application/finish_login.go:110-184 | Commits in exactly two cases: success, returning tokens for the user of the credential with the role in its row and exactly the keys that the registration of the credential supplied, and a suspected clone, after which no session of the user is valid from the clock reading on. Every other error changes nothing and is never not found. Without faults, exactly which answer, over the rows. |
| Interleaving.CountShrinks | internal/domain/invite/invite.go:65-66 | A count taken at one time bounds the count at every later time. |
| Interleaving.StepKeepsInv | internal/infrastructure/storage/invite_repository.go:35-73 | Every statement of every interleaved transaction keeps the tree, the bijection, the quota and what each open transaction relies on. |
| Interleaving.EachInviteAdmitsOneUser | internal/infrastructure/storage/pg/query.sql.go:100-106 | However redemptions, creations and failures interleave under the row lock, users stay one tree in bijection with used invites: one invite, at most one user. |
| Interleaving.QuotaHoldsInEverySchedule | internal/application/create_invite.go:55-95 | A user served only by an issuer limited to k has, at every time from the clock on, at most k open invites, although the clock is read before the lock is taken. |
| Interleaving.RedeemingAloneIsAdmission | internal/application/finish_invite_registration.go:163-181 | With no other transaction about, the locked steps of a redemption go through exactly when the serial use case admits the user, and leave the same tables. |
| Interleaving.IssuingAloneIsCreation | internal/application/create_invite.go:56-86 | With no other transaction about, the locked steps of an issue go through exactly when the serial use case answers with an invite, and store that invite. |
| TokenInterleaving.BatchEffect | internal/infrastructure/storage/pg/batch.go:22-37 | A batch whose rows for known ids carry a revocation inserts the new rows, revokes the known ones and touches nothing else. |
| TokenInterleaving.StepKeepsInv | internal/application/session_issuer.go:161-182 | Every statement of every interleaved transaction keeps the invariant, and no commit clears a revocation. |
| TokenInterleaving.RevocationIsPermanent | internal/infrastructure/storage/pg/batch.go:22-37 | With stale reads and any interleaving: once committed, a revocation is never undone and no other column of a token ever changes. |
| TokenInterleaving.CommittedRevocationsStay | internal/application/revoke_session.go:62-73 | Whatever a committed transaction read to revoke is revoked in the tables from its commit on. |
| TokenInterleaving.RefreshWithinLifetime | internal/domain/session/session.go:91-110 | In every interleaving a token read as refreshable comes from a lineage issued less than the refresh lifetime before, for the same user, device and address. |
| TokenIndexes.IndexesHoldInEverySchedule | internal/infrastructure/storage/schema.sql:59-76 | In every schedule no two stored tokens have one hash, and no two open transactions have uncommitted writes of one row. |
| TokenSerial.BatchIsUpserts | internal/infrastructure/storage/pg/batch.go:22-37 | What an interleaved transaction writes on commit is what the upserts of its batch do to the tables, one after another. |
| TokenSerial.AloneIsUseCase | internal/application/session_issuer.go:134-206 | With no other transaction about, every run of one that commits has issued one session, rotated the presented token, or revoked exactly the active tokens it was to revoke, as its use case does. |
| TokenLineages.CommitForksExactly | internal/application/session_issuer.go:161-182 | The commit of a refresh leaves at most one live token in every lineage exactly if the token presented is still live then or its lineage is dead. |
| TokenLineages.LineagesForkExactly | internal/infrastructure/storage/session_repository.go:24-33 | In every schedule: no lineage ever has two live tokens exactly if every refresh that commits presented a token in turn. |
| TokenLineages.TwoRefreshesForkALineage | internal/infrastructure/storage/session_repository.go:24-33 | A schedule from the empty tables in which two refreshes of one token both commit and leave two live tokens. |
| TokenRevocations.RevocationMissesExactly | internal/application/revoke_all_user_sessions.go:37-104 | In every schedule a committed revocation leaves the users no stored session that is valid from its clock reading on exactly if none of theirs was committed between its lookup and its commit and is still active. |
| TokenRevocations.InvalidForGood | internal/application/revoke_compromised_chain.go:32-66 | What such a revocation left invalid stays invalid in every continuation. |
| TokenRevocations.SessionSlipsThrough | internal/infrastructure/storage/session_repository.go:46-59 | A schedule from the empty tables in which a session found for revocation is refreshed before the revocation commits, and its successor is valid afterwards. |
| TokenRevocations.DeadLineStaysExactly | internal/application/session_issuer.go:134-206 | In every schedule a lineage without a live token stays so exactly if no refresh commits that had read one of its tokens before. |
| TokenRevocations.RefreshRevivesDeadLine | internal/application/revoke_session.go:62-73 | A schedule from the empty tables in which a session is ended by its owner and lives again by a refresh that had read it. |
| CredentialInterleaving.DecidedAsByUseCase | internal/application/finish_login.go:127-171 | The row an interleaved login saves is the one the use case commits, for an acceptance and for a suspected clone. |
| CredentialInterleaving.RevocationLastsExactly | internal/infrastructure/storage/pg/query.sql.go:383-408 | In every schedule a committed revocation lasts exactly if no login that had read the row before it is committed as accepted. |
| CredentialInterleaving.StaleLoginClearsRevocation | internal/infrastructure/storage/credential_repository.go:24-57 | A schedule from an idle row that reaches a committed revocation and, by the acceptance of a login with a stale copy, its end. |
| CredentialInterleaving.CounterNeverFallsExactly | internal/infrastructure/storage/pg/query.sql.go:383-408 | In every schedule the stored counter never falls exactly if no login commits after another, since its lookup, committed a higher one. |
| CredentialInterleaving.RuleKeptExactly | internal/domain/credential/credential.go:88-94 | In every schedule each accepted counter is acceptable after the one it overwrites exactly if no login commits after another, since its lookup, committed its counter or a higher one. |
| CredentialInterleaving.OvertakenLoginLowersCounter | internal/infrastructure/storage/credential_repository.go:24-57 | A schedule in which two logins read one row and the one with the lower counter commits last. |
| RouteTable.AtMostOneFits | api/http/oas_router_gen.go:65-386 | No path fits two of the nine templates. |
| RouteTable.FitsExactlyItsTexts | api/http/oas_router_gen.go:96-140 | A path fits a template segment by segment exactly when it is the text of the template with some slash-free string, possibly empty, for its parameter. |
| RouteTable.OneArgument | api/http/oas_router_gen.go:105-112 | The captured argument is the only one the path can have been built from. |
| RouteTable.HitDispatch | api/http/oas_router_gen.go:120-140 | A path built from a template and an argument is dispatched to that operation with that argument, or told the allowed method. |
| RouteTable.RoutesWithParameter | api/http/oas_router_gen.go:96-140 | The two routes with a parameter, spelled out: path, method, handler, argument and the headers of a refusal. |
| RouteTable.FixedRoutes | api/http/oas_router_gen.go:142-386 | The three fixed routes without a body, spelled out likewise. |
| RouteTable.RoutesWithBody | api/http/oas_router_gen.go:142-386 | The four fixed routes with a JSON body, spelled out likewise. |
| RouteTable.MissDispatch | api/http/oas_router_gen.go:384-386 | A path built from no template is not found. |
| Router.PatternTextNamesParameter | api/http/oas_router_gen.go:488-772 | The reported pattern is the template with the name of the parameter in braces. |
| Router.Server.CutPrefix | api/http/oas_router_gen.go:39-50 | Removes the configured prefix, or says that the path does not have it. |
| Router.Server.ServeHTTP | api/http/oas_router_gen.go:54-386 | For every prefix, method and path the trie answers what a linear search of the table answers: the handler and its argument, the allowed method with its headers, or not found. |
| Router.Server.FindPath | api/http/oas_router_gen.go:439-772 | The second copy finds an operation exactly when the first calls its handler, with the same argument, and reports its pattern. |
| Router.Server.Reply | api/http/oas_router_gen.go:120-140 | The leaf switches on the method answer what the table says. |
| Strings.SplitAtLast | internal/presentation/http/ip_middleware.go:78-90 | Splitting may start at the last separator. |
| Strings.JoinSplit | api/http/oas_router_gen.go:54-386 | Joining what splitting gave returns the string. |
| Strings.SplitJoin | api/http/oas_router_gen.go:54-386 | Splitting what was joined from separator-free parts returns the parts. |
| ForwardedFor.RightmostCandidate | internal/presentation/http/ip_middleware.go:74-107 | The reference search: the last entry that is non-empty after trimming, parses and is untrusted, with no such entry after it. |
| ForwardedFor.TrimmedBetweenSpaces | internal/presentation/http/ip_middleware.go:85-88 | A string is white space, what is left after trimming, and white space; what is left is empty or begins and ends otherwise. |
| ForwardedFor.PaddingChangesNothing | internal/presentation/http/ip_middleware.go:74-107 | White space around an entry, on either side, does not change what is found. |
| ForwardedFor.ScanStep | internal/presentation/http/ip_middleware.go:79-91 | One turn of the scan answers for the last entry or leaves the search to the text before the comma. |
| ForwardedFor.IsTrustedProxy | internal/presentation/http/ip_middleware.go:109-117 | True exactly if some prefix contains the address. |
| ForwardedFor.FirstUntrustedFromRight | internal/presentation/http/ip_middleware.go:74-107 | For every header and trusted list the scan ends and finds what splitting first and searching from the right would. |
| ForwardedFor.ExtractClientIP | internal/presentation/http/ip_middleware.go:51-72 | The peer is read as an address with a port before a bare one; an untrusted peer is the client whatever the header says; otherwise the search decides, and the result is trusted exactly if the peer is and the header names no untrusted address. |
| ForwardedFor.ParseCIDRList | internal/presentation/http/ip_middleware.go:119-133 | All entries parsed and masked in order, or the first that does not parse. |
| IdPool.StampedIsVersion4 | pkg/idgen/generator.go:25-28 | A stamped identifier carries the version and variant bits of section 4.4 of RFC 4122 and is not the nil one. |
| IdPool.StampedKeepsRandomBits | pkg/idgen/generator.go:25-28 | The other 122 bits are those read, each in its place. |
| IdPool.BatchBuffer.Refill | pkg/idgen/generator.go:19-32 | A successful refill holds the stamped chunks of exactly one read; a failed one overwrites bytes but opens no slot. |
| IdPool.NewID | pkg/idgen/generator.go:49-68 | Hands out the next slot, after a refill if none is left, or an identifier of its own if the refill failed. |
| IdPool.StepKeepsInv | pkg/idgen/generator.go:34-68 | Every step of goroutines, pool and random source keeps: buffers with slots left hold the unissued rest of different batches, and the log counts slots in order. |
| IdPool.EachChunkOnceInOrder | pkg/idgen/generator.go:19-68 | Under any interleaving every identifier issued is a stamped chunk of a read that succeeded, and those of one read are different chunks in ascending order. |
| ErrKit.AppendSlice | pkg/errkit/error.go:34-40 | Go's append, in place while the capacity lasts: the contents grow by the new elements. |
| ErrKit.Append | pkg/errkit/error.go:19-53 | The members are the concatenation of what the operands contribute, the format is that of the first, flat operands give a flat, nil-free result, and no operand changes. |
| ErrKit.AppendAssociates | pkg/errkit/error.go:19-53 | Merging three operands in either grouping gives the same members. |
| ErrKit.AsTypeIsLeftmost | pkg/errkit/error.go:20-20 | The accumulator found in an error tree is the leftmost of the tree. |
| ErrKit.KeptExactly | pkg/errkit/error.go:34-41 | An operand arrives, itself or by its members, exactly if it is an accumulator or contains none; otherwise only the members of its leftmost accumulator arrive. |
| ErrKit.JoinedErrorLost | pkg/errkit/error.go:34-41 | A concrete operand, an accumulator joined with another error, whose other error is lost. |
| ErrGroup.Group.Add | pkg/errkit/group.go:14-21 | Collects the members of one error and no others; nil changes nothing. |
| ErrGroup.Group.Go | pkg/errkit/group.go:23-34 | A started task will submit exactly its error: what it returns, or for a panic with a plain value or with an error the panic error of it, and it will then have failed the group. |
| ErrGroup.Group.Complete | pkg/errkit/group.go:23-34 | Whichever task ends next, its error is collected and the books still balance. |
| ErrGroup.Group.Wait | pkg/errkit/group.go:42-61 | In whatever order tasks end, the result holds exactly the multiset submitted by adds, tasks and finally functions, is nil exactly if no error value was, and waiting again changes nothing. |
| ErrGroup.RunAll | pkg/errkit/group.go:23-61 | A group of any tasks waits for nil exactly if all returned nil; a panic is among the members once for every task that ended in it. |
| ErrGroup.CompleteBalances | pkg/errkit/group.go:23-34 | Taking any one task off the running ones conserves the multiset of members collected and still due. |
| ErrGroup.FinalInOrder | pkg/errkit/group.go:45-55 | Running the next finally function conserves it too. |
| ErrGroup.NilAccumulatorFailsGroup | pkg/errkit/group.go:42-61 | A group whose one task returns a nil accumulator waits for a non-nil error without members. |

## Left out

- Logging, redaction, telemetry, configuration, dependency injection, HTTP handlers, request and response codecs, the
  PASETO, WebAuthn, HMAC and base32 libraries: no state of the service.
- `FindByCodeHash`, `FindByUserID` and the two begin steps of WebAuthn ceremonies: reads whose results reach the
  modelled code as parameters.
- Time stamps are not truncated to the microseconds that the database keeps, and the lifetime of access tokens is not
  modelled.
- The theorems of module `Runs` are about transactions run one after another. Those that fail when transactions
  interleave have a failing schedule and an exact condition instead: `RunKeepsLineages` in `TokenLineages`,
  `ChainRevocationIsComplete` and `CloneRevocationIsComplete` in `TokenRevocations`, `SuspectedCredentialNeverLogsIn`
  and `CountersRise` in `CredentialInterleaving`. The statements on the credential row and those on tokens are
  interleaved each among themselves, not with each other.
- `Interleaving` has the two invite transactions only, with credentials, keys and sessions of a registration left out,
  since they touch neither invites nor users. A wait for a lock is a step that is not yet enabled; deadlock detection
  is an abort.
- Foreign keys with `ON DELETE`: nothing in the service deletes rows.
- Service.Service.RevokeCompromisedChain: speaks of the subtree at the time of the query, which is read before the
  revoking transaction begins, as in the source; users admitted in between are not in it.
- Sessions.Issue: modelled inside an open transaction, as every use case calls it.
- Sessions.Rotate: modelled inside an open transaction, as its use case calls it.
- Router.Server.ServeHTTP: the plain path only, without an escaped raw path. The nested switch is cut into one method
  for each first letter, the parameter node and the leaves; a `break` to the common not-found tail is a return there.
- Router.Server.FindPath: likewise; summary and operation id of a route are left out.
- IdPool.NewID: the body between taking a buffer and putting it back; pool and goroutines are the state machine of the
  same module, in which one read of the random source is one step.
- ErrKit.Append: errors with an `As` method of their own are not modelled, nor is the difference between a nil and an
  empty slice.
- ErrGroup.Group.Wait: a panic in a finally function is not modelled, and tasks do not themselves call the group.
