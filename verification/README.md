# EigenFlux console protocols in Dafny

A model of the transactional protocols and paging loops of the EigenFlux gateway
(`api/consolev2` and the limiter of `api/agentcard`), with proofs about every run and every input.

`dafny verify dfyconfig.toml` checks the project.

## How it is modelled

A database table is a map (or a sequence, when rows are only appended), and a unique index is a map
from the unique columns. Each transaction or Lua script is one atomic step; the clock readings it
makes are parameters, with the gateway clock and the database clock kept apart and, unless a lemma
says otherwise, in no particular order. A run is any sequence of such steps by any callers. Hashes
and keyed hashes are collision free by construction: a token is the term it is derived from.
Signature, scope, version and text checks that look only at the request are booleans of the request, except those of
context writes.

Where the source updates tables or buffers in place there is a class whose methods follow the
handlers statement by statement, with an explicit rollback where a transaction fails after writing.
Each method is proved equal to a function on the tables' values, and the theorems are about those
functions: they are what a run is made of. The modules named `...Answers` say, for each transaction, over
the stored rows and with the constants written out, exactly when it gives which answer, which rows it
writes and that it writes no others.

| files | protocol |
|---|---|
| `AttentionCommands`, `CommandRuns`, `CommandAnswers`, `CommandStore` | command leases, claims and completions, and the attention items that move with them |
| `IdentityState`, `Credentials`, `CredentialChains`, `RetryRuns`, `CredentialAnswers`, `EnrolmentAnswers` | bootstrap grants, device links, credential families, refresh rotation, retry and reuse (the idea of section 4.14.2 of RFC 9700 with a retry receipt) |
| `AccountSwitch`, `SwitchHistory`, `SwitchAnswers`, `AccountRecovery`, `IdentityRuns`, `IdentityStore` | CLI account switches, their audit trail, account recovery, and runs of all identity transactions together |
| `PublishQuota`, `UploadAnswers` | the authoritative upload transaction and its hourly quotas |
| `RateScript`, `RateStored`, `RateWait`, `RateKeys` | the advisory sorted sets in front of it and the exact retry hint |
| `SessionSlots` | the five console session slots of a browser |
| `MessagePages` | conversation pages, anchored windows and trimming to a size budget |
| `WorthWatching` | the two-pass round-robin selector |
| `MarketCursor`, `MarketServices` | the catalogue cursor, ranking, paging and the loading loop |
| `WriteLimiter` | rolling-window limiters for profile writes and card reads |
| `ContextMutation`, `ContextAnswers` | optimistic revisions with idempotency keys |
| `ActivityStream` | bounded replay of the activity log over reconnections |

## What turned out differently

- The retry hint of the rate script is not always the exact wait. For a batch whose members are not
  yet held it is exactly when it ends before the keys expire (`HintIsLeastWait`), which holds while the
  limiter's clock does not go back and stored times are at most a minute ahead of it
  (`TimelyWaitIsExact`). With rows stored further ahead it is too long, because the keys expire first:
  `HintTooLongForRowsAhead` gives the rows. Without any assumption on clocks such a batch is accepted
  once the hint has passed or the keys have expired, and not before (`ReachableWaitIsExact`).
- For a batch that repeats a held member the hint can be too short: `HintTooShortForHeldMembers` gives
  one, and `AcceptedWhenEnoughLeave` says exactly when a retry is accepted. The gateway draws a fresh
  reservation token for every batch, so its own batches are of the first kind.
- A refresh or a provision is not the only way back after a completed switch: linking the same device
  key from the target's console stores a credential that is accepted at once (`LinkedIsAccepted`).
- The lease periods of two grants do not overlap even if the database clock goes back, since a new
  grant waits for the old deadline itself.
- That every valid candidate's author is present before the selector reuses one holds because each
  query lists an item with its one `raw_items.author_agent_id`. It would fail for an item listed
  under two authors: `TwoAuthorsMissOne` gives the rules and their only selection.
- The limiter named after a fixed window is a rolling one, as its own comment admits.

## Model

| member | source | states |
|---|---|---|
| `CommandRuns.ReachableItemsInStep` | api/consolev2/attention_response_handlers.go:146-266 | in every reachable state an item is pending exactly when it has one unfinished response command, acted exactly when it has one successful one, and its revision is 1 + commands + finished commands + 1 if dismissed |
| `CommandRuns.SettledItemsAreFrozen` | api/consolev2/attention_handlers.go:224-239 | over every run acted and dismissed items keep their whole row |
| `CommandRuns.GrantsDoNotOverlap` | api/consolev2/command_handlers.go:251-303 | two new grants of one command have rising epochs and lease periods that do not overlap, whatever the database clock does |
| `CommandRuns.EpochHasOneHolder` | api/consolev2/command_handlers.go:278-286 | all claim answers with one epoch name one runtime, token and deadline, and only the first was a new grant |
| `CommandRuns.GrantFollowsHeartbeat` | api/consolev2/command_handlers.go:261-277 | a claim is answered only to a runtime whose heartbeat, less than 90 seconds before, reported the context it names and the command needs |
| `CommandRuns.HolderMayAskAgain` | api/consolev2/command_handlers.go:278-286 | a live holder that claims again gets the claim it has; the token comparison never fails |
| `CommandRuns.OldEpochIsFenced` | api/consolev2/command_handlers.go:582-596 | after a later grant, a completion with an earlier epoch changes nothing and is never confirmed |
| `CommandRuns.OneCompletion` | api/consolev2/command_handlers.go:582-596 | at most one completion ever finishes a command |
| `CommandRuns.OnlyTheHolderFinishes` | api/consolev2/command_handlers.go:582-596 | what finishes a command carries at least the granted epoch; with that epoch it is its holder, token and period |
| `CommandRuns.FinishFollowsGrant` | api/consolev2/command_handlers.go:582-596 | in every run, whatever finishes a command presents a claim that an earlier step granted to the same runtime, and does so before the granted deadline |
| `CommandRuns.FinishedIsFrozen` | api/consolev2/command_handlers.go:633-655 | a finished command's row never changes, and the same completion sent again gets the first answer unless its result no longer validates |
| `CommandRuns.ResponseIsMadeOnce` | api/consolev2/attention_response_handlers.go:100-118 | an accepted response sent again, at any later time, creates nothing and gets back the same command and flag |
| `CommandRuns.SettleInStep` | api/consolev2/command_handlers.go:597-621 | finishing the one unfinished command of an item settles that item and no other |
| `CommandRuns.StepKeeps` | api/consolev2/command_handlers.go:43-655 | every transaction on commands, items, leases and contexts keeps the whole invariant |
| `CommandRuns.StepAdvances` | api/consolev2/command_handlers.go:251-303 | what any transaction may change in a row: epochs and deadlines grow, finished rows and settled items stay |
| `CommandStore.Tables.CreateAgentCommand` | api/consolev2/command_handlers.go:91-140 | the handler's statements: replay, key conflict, missing context, insert |
| `CommandStore.Tables.RespondAttentionItem` | api/consolev2/attention_response_handlers.go:88-306 | the handler's statements: replay, checks in source order, command insert, item update, both clock readings |
| `CommandRuns.PrefillWaitsForOnboarding` | api/consolev2/attention_response_handlers.go:692-710 | an open prefill item changes only when its agent has finished onboarding and has an active context |
| `CommandStore.Tables.SelectAction` | api/consolev2/attention_response_handlers.go:159-168 | the loop finds the first action with the key, or none |
| `CommandStore.Tables.ClaimAgentCommand` | api/consolev2/command_handlers.go:251-303 | lease and context checks, repeat of a live claim, new grant |
| `CommandStore.Tables.CompleteAgentCommand` | api/consolev2/command_handlers.go:549-655 | fenced update, item update, and the comparison that answers a replay |
| `CommandStore.Tables.DismissAttentionItem` | api/consolev2/attention_handlers.go:207-262 | prefill checks, conditional dismissal, replay of a dismissal |
| `CommandStore.Tables.RuntimeHeartbeat` | api/consolev2/runtime_handlers.go:43-75 | the lease row and its deadline; refused for a bad request or a context revision that does not exist |
| `CommandAnswers.ClaimGrantsExactly` | api/consolev2/command_handlers.go:251-303 | a claim is a new grant exactly when the live lease shows the named context, the command needs no later one and nobody holds it; it takes the next epoch for 120000 ms |
| `CommandAnswers.ClaimAnswersExactly` | api/consolev2/command_handlers.go:251-303 | the condition of every other answer to a claim; none of them changes anything |
| `CommandAnswers.CompleteFinishesExactly` | api/consolev2/command_handlers.go:549-621 | a completion finishes its command exactly when it presents the claim in time with a valid result; it stores the canonical or the raw result, settles the one item and changes no other row |
| `CommandAnswers.CompleteAnswersExactly` | api/consolev2/command_handlers.go:549-655 | the condition of every answer of a completion that finishes nothing |
| `CommandAnswers.CreateExactly` | api/consolev2/command_handlers.go:91-140 | a command is created exactly when the agent has an active context and no command with that key; a repeat gets the first command |
| `CommandAnswers.RespondExactly` | api/consolev2/attention_response_handlers.go:88-306 | a response is accepted exactly when key, item, clocks, action and context allow it, and otherwise nothing changes |
| `CommandAnswers.ResponseWrites` | api/consolev2/attention_response_handlers.go:230-306 | the command row and the item row an accepted response leaves, and nothing else |
| `CommandAnswers.RefusalsExactly` | api/consolev2/attention_response_handlers.go:146-230 | why an answerable item refuses a response, in the order of the checks |
| `CommandAnswers.ConflictsExactly` | api/consolev2/attention_response_handlers.go:120-190 | items that are not the agent's, open, current and unexpired conflict, and so do unknown actions |
| `CommandAnswers.RepeatedResponseExactly` | api/consolev2/attention_response_handlers.go:88-118 | a used key answers a conflict, or the stored command with the item's present state |
| `CommandAnswers.DismissExactly` | api/consolev2/attention_handlers.go:207-262 | the condition of every answer to a dismissal and the row it leaves |
| `CommandAnswers.HeartbeatExactly` | api/consolev2/runtime_handlers.go:43-75 | a lease is renewed for 90000 ms exactly when the heartbeat names no revision or a stored positive one |
| `IdentityRuns.ReachableFamiliesAreChains` | api/consolev2/auth_handlers.go:995-1161 | in every reachable state the sessions of a family form one chain: counters 0, 1, 2, ..., each replaced by the next alone, one principal, only the last may be unrevoked |
| `CredentialChains.FamilyIsOneChain` | api/consolev2/auth_handlers.go:995-1161 | the invariant of the credential tables means one chain per family |
| `CredentialChains.AtMostOneLiveSession` | api/consolev2/auth_handlers.go:1135-1156 | two unrevoked sessions of a family are the same session, and it is the last |
| `CredentialChains.ReuseKillsFamily` | api/consolev2/auth_handlers.go:1094-1115 | a refresh that reports reuse has revoked every session of the presented token's family |
| `CredentialChains.ChallengeReuseKillsFamily` | api/consolev2/auth_handlers.go:875-883 | so has a challenge that reports reuse |
| `CredentialChains.DeadFamilyStaysDead` | api/consolev2/auth_handlers.go:995-1161 | no refresh of a dead family succeeds or revives it |
| `IdentityRuns.ReuseIsFinal` | api/consolev2/auth_handlers.go:995-1161 | once a refresh or a challenge has detected reuse, whatever transactions follow, no refresh with a token of the family succeeds |
| `CredentialChains.RetryReturnsSuccessor` | api/consolev2/auth_handlers.go:1042-1093 | a retry of a rotation returns the successor with the tokens it stores, consumes only its nonce and revokes nothing |
| `RetryRuns.RetriesAllAgree` | api/consolev2/auth_handlers.go:1042-1093 | in every run, whatever happens in between, any two successful refreshes with one token have the same key and request id and get the same session, tokens, expiry, family and principal |
| `RetryRuns.RetrySucceeds` | api/consolev2/auth_handlers.go:1042-1093 | in every run a retry with a usable nonce succeeds while the successor is live, unreplaced and unexpired; it gets the first answer, revokes and replaces nothing and consumes only its nonce |
| `RetryRuns.LostAnswerIsRecovered` | api/consolev2/auth_handlers.go:855-1093 | in every run a client that lost an answer and repeats its request id gets a nonce from the challenge, and the refresh with it returns the lost answer, while the successor is live, unreplaced and unexpired |
| `RetryRuns.NonceIsUsedOnce` | api/consolev2/auth_handlers.go:1077-1131 | in every run a challenge nonce answers at most one refresh or device link |
| `RetryRuns.RevokedStaysShut` | api/consolev2/agent_access_failure.go:5-26 | in every run a revoked credential is never accepted again |
| `RetryRuns.AbandonedStaysShut` | api/consolev2/recovery_handlers.go:324-334 | in every run no credential that a recovery left with the abandoned agent is accepted again |
| `CredentialAnswers.RefreshRotatesExactly` | api/consolev2/auth_handlers.go:1118-1156 | a refresh rotates exactly when it presents a current token with its key, an unused nonce and a new request id; access lasts 900000 ms, the new token 2592000000 ms, and only the two rows and the nonce change |
| `CredentialAnswers.LiveTokenRotates` | api/consolev2/auth_handlers.go:855-1156 | a current token is never stuck: the challenge gives a nonce and the refresh rotates |
| `CredentialAnswers.RefreshAnswersExactly` | api/consolev2/auth_handlers.go:1029-1145 | the condition of every answer to a presented token: upgrade, reuse, expired, invalid nonce, taken request id, issued |
| `CredentialAnswers.RefreshLeaves` | api/consolev2/auth_handlers.go:1042-1115 | what a refresh that does not rotate leaves: a revoked family, a used nonce with a cleared flag, or nothing |
| `CredentialAnswers.ChallengeExactly` | api/consolev2/auth_handlers.go:855-918 | a nonce for 120000 ms exactly for a current token or the request that replaced it; another request id revokes the family |
| `CredentialAnswers.AcceptedExactly` | api/consolev2/agent_access_failure.go:5-26 | a session is accepted exactly when it, its key and its agent are in order, no refresh is required and it is unexpired |
| `CredentialAnswers.RejectionExactly` | api/consolev2/agent_access_failure.go:5-26 | the reason of a rejection is the first that applies |
| `EnrolmentAnswers.IssueGrantExactly` | api/consolev2/auth_handlers.go:105-183 | a grant is issued exactly for a new entitlement with an unused request id or again for its own request, for 300000 ms |
| `EnrolmentAnswers.ProvisionKnownExactly` | api/consolev2/auth_handlers.go:440-638 | a known key gets a new credential exactly with a grant that agrees with its agent and a new idempotency key |
| `EnrolmentAnswers.ProvisionNewExactly` | api/consolev2/auth_handlers.go:440-638 | a new key is enrolled exactly with a grant that is not for recovery, for its subject or for a new agent |
| `EnrolmentAnswers.ProvisionReplayExactly` | api/consolev2/auth_handlers.go:400-442 | a repeated provision answers from its receipt, without a grant |
| `EnrolmentAnswers.LinkExactly` | api/consolev2/principal_handlers.go:145-200 | a device is linked exactly when console and key are proven with an unused device nonce and the key is new or a usable key of that agent |
| `EnrolmentAnswers.RecoverExactly` | api/consolev2/recovery_handlers.go:205-290 | a recovery goes through exactly when it is verified, both agents are active and the key may move |
| `EnrolmentAnswers.RecoverLeaves` | api/consolev2/recovery_handlers.go:291-318 | a recovery that keeps the source agent moves the key, flags its credentials and touches nothing else |
| `EnrolmentAnswers.AbandonLeaves` | api/consolev2/recovery_handlers.go:324-342 | an abandoned agent is deactivated and loses its keys and credentials; those of all other agents stay |
| `EnrolmentAnswers.RevokeExactly` | api/consolev2/principal_handlers.go:255-292 | a device key is revoked exactly by its own agent, once, with all its credentials and no others |
| `RetryRuns.GrantIsUsedOnce` | api/consolev2/auth_handlers.go:607-632 | in every run an entitlement, and so its bootstrap grant, gives at most one credential |
| `CredentialChains.ReplacedTokenUse` | api/consolev2/auth_handlers.go:1042-1102 | a replaced token revokes the family exactly when it is not a repeat of the request whose successor is live and unreplaced |
| `Credentials.ProvisionKeepsInv` | api/consolev2/auth_handlers.go:275-710 | provisioning keeps the invariant of principals, sessions and unique indexes |
| `Credentials.ChallengeKeepsInv` | api/consolev2/auth_handlers.go:811-918 | so does a refresh challenge |
| `Credentials.RefreshKeepsInv` | api/consolev2/auth_handlers.go:986-1161 | so does a refresh |
| `Credentials.LinkKeepsInv` | api/consolev2/principal_handlers.go:145-200 | so does linking a device |
| `Credentials.LinkedIsAccepted` | api/consolev2/principal_handlers.go:145-200 | a linked device gets a new session of its own for that key and agent, accepted until it expires exactly when identity and principal are in order |
| `Credentials.PlanRefresh` | api/consolev2/auth_handlers.go:986-1161 | what each decision of a refresh has established about the row, its successor and the nonce |
| `IdentityStore.Tables.ProvisionAgent` | api/consolev2/auth_handlers.go:376-638 | receipt replay, grant, nonce and binding checks, new or existing principal, consumption of grant and nonce, and the credential insert with its rollback |
| `IdentityStore.Tables.IssueBootstrapGrant` | api/consolev2/auth_handlers.go:105-183 | a new grant with its nonce, renewal of an unused one, or a conflict with the key, request id, channel, policy or subject that first used the entitlement |
| `IdentityStore.Tables.CreateRefreshChallenge` | api/consolev2/auth_handlers.go:855-918 | the handler's statements and their order |
| `IdentityStore.Tables.RefreshAgentSession` | api/consolev2/auth_handlers.go:995-1161 | the transaction's statements, with the rollback when the successor's insert fails |
| `IdentityStore.Tables.ReplayRotation` | api/consolev2/auth_handlers.go:1042-1102 | the replaced-token branch, with the rollback of the nonce when the successor has expired |
| `IdentityStore.Tables.CreatePrincipalChallenge` | api/consolev2/principal_handlers.go:35-75 | a device nonce bound to agent, console session and key |
| `IdentityStore.Tables.AddPrincipal` | api/consolev2/principal_handlers.go:145-200 | nonce use, existing or new principal and the credential insert, with rollback |
| `IdentityStore.Tables.RevokeDevice` | api/consolev2/principal_handlers.go:255-292 | a device key of the agent and all its credentials are revoked, once |
| `IdentityStore.Tables.ConfirmAccountRecovery` | api/consolev2/recovery_handlers.go:212-342 | checks and updates of agents, principals and credentials, in order |
| `IdentityRuns.ReachableSwitches` | api/consolev2/account_switch_handlers.go:61-114 | in every reachable state replaying a switch's audit rows gives its status, and no principal has two pending switches |
| `IdentityRuns.FinishedSwitchesNeverChange` | api/consolev2/account_switch_handlers.go:277-440 | over every run a finished switch keeps its row |
| `IdentityRuns.EveryStepMoves` | api/consolev2/account_switch_handlers.go:133-212 | at every step of every run a principal changes agent exactly when one of its switches completes or it is recovered, from source to target, its credentials are then locked, and finished switches keep their rows |
| `IdentityRuns.RecoverMoves` | api/consolev2/recovery_handlers.go:307-318 | a recovery moves its principal from source to target, locks its credentials and touches no other binding and no switch |
| `IdentityRuns.StaysLocked` | api/consolev2/account_switch_handlers.go:187-190 | whatever transactions follow, only a successful refresh, or a provision or device link that stores a new credential, unlocks the credentials; replaying a provision receipt does not |
| `IdentityRuns.NoAccessUntilReissue` | api/consolev2/agent_access_failure.go:5-26 | from a completed switch or recovery to the principal's next successful refresh or newly stored credential none of its access credentials is accepted |
| `SwitchAnswers.CompletionWasAuthorised` | api/consolev2/account_switch_handlers.go:290-385 | in every run a switch completes only for a target that a confirmation with a recent email sign-in, or the emailed code, proved control of |
| `SwitchAnswers.ConfirmCompletesExactly` | api/consolev2/account_switch_handlers.go:290-385 | a confirmation completes a switch exactly with a recent email sign-in, an open row, an onboarded active target other than the source, agreeing console, and a live key; the row, reply and moved key it leaves |
| `SwitchAnswers.NoMoveWithoutRecentAuth` | api/consolev2/account_switch_handlers.go:336-338 | without a recent email sign-in a confirmation moves nobody and completes nothing |
| `SwitchAnswers.ConfirmMovesExactly` | api/consolev2/account_switch_handlers.go:290-385 | when a confirmation expires the switch, keeps the account or waits for onboarding, and that it does nothing else |
| `SwitchAnswers.ConfirmAnswersExactly` | api/consolev2/account_switch_handlers.go:290-385 | the conditions of its answers |
| `SwitchAnswers.CancelExactly` | api/consolev2/account_switch_handlers.go:413-440 | exactly a pending switch is cancelled |
| `SwitchAnswers.ExchangeExactly` | api/consolev2/auth_handlers.go:1391-1413 | a switch starts exactly for a usable key of an active agent under an unused id, for 86400000 ms, and revokes the key's pending one |
| `SwitchAnswers.FinalizePendingExactly` | api/consolev2/account_switch_handlers.go:442-468 | onboarding completes a switch exactly when it is bound to this target and console and the move may still be made |
| `SwitchAnswers.FinalizePendingMovesExactly` | api/consolev2/account_switch_handlers.go:442-468 | what onboarding does to a bound switch that it does not complete |
| `SwitchAnswers.VerifyEmailCompletesExactly` | api/consolev2/account_switch_email_handlers.go:166-280 | the emailed code completes a switch exactly for a proven browser, a live key and a new or onboarded account; the rows it leaves |
| `SwitchAnswers.VerifyEmailMovesExactly` | api/consolev2/account_switch_email_handlers.go:166-280 | when it keeps the account or waits for onboarding instead |
| `IdentityRuns.StepKeepsInv` | api/consolev2/auth_handlers.go:275-1161 | every transaction keeps the credential invariant |
| `IdentityRuns.StepKeepsLedger` | api/consolev2/account_switch_handlers.go:61-468 | every transaction keeps switch rows, pending index and audit trail consistent |
| `SwitchHistory.OnePendingSwitch` | api/consolev2/auth_handlers.go:1391-1413 | a principal never has two pending switches |
| `SwitchHistory.ExchangeKeeps` | api/consolev2/auth_handlers.go:1391-1413 | starting a switch keeps the ledger, and the unique index never refuses it |
| `SwitchHistory.RejectedSwitchMovesNobody` | api/consolev2/account_switch_handlers.go:442-468 | a swallowed conflict has changed no principal and no credential; success has bound the principal to the target |
| `SwitchHistory.StaleRecordWouldMoveThePrincipal` | api/consolev2/account_switch_handlers.go:195-208 | without the row lock a conflict would leave the principal moved exactly when the row is no longer pending |
| `SwitchHistory.MovedKeeps` | api/consolev2/account_switch_handlers.go:61-66 | a legal transition with its audit row keeps the ledger |
| `IdentityStore.Tables.ExpireCLIAccountSwitch` | api/consolev2/account_switch_handlers.go:68-81 | expiry of a pending row and its audit row |
| `IdentityStore.Tables.CompleteNoopCLIAccountSwitch` | api/consolev2/account_switch_handlers.go:83-131 | checks, update and audit row of a switch to the current account |
| `IdentityStore.Tables.FinalizeCLIAccountSwitch` | api/consolev2/account_switch_handlers.go:133-212 | the statements in order, including what a late conflict leaves written |
| `IdentityStore.Tables.GetCLIAccountSwitch` | api/consolev2/account_switch_handlers.go:214-240 | reading an overdue pending switch expires it |
| `IdentityStore.Tables.ConfirmCLIAccountSwitch` | api/consolev2/account_switch_handlers.go:290-385 | the transaction's branches and the rollback of a failed finalization |
| `IdentityStore.Tables.CancelCLIAccountSwitch` | api/consolev2/account_switch_handlers.go:413-440 | a pending switch becomes revoked, anything else is refused |
| `IdentityStore.Tables.FinalizePendingCLIAccountSwitch` | api/consolev2/account_switch_handlers.go:442-468 | conflicts are committed as revoked, missing onboarding rolls back |
| `IdentityStore.Tables.StartCLIAccountSwitch` | api/consolev2/auth_handlers.go:1391-1413 | revokes the pending switch, then inserts the new one |
| `IdentityStore.Tables.VerifySwitchEmail` | api/consolev2/account_switch_email_handlers.go:166-280 | the browser principal, and the three ways the switch moves on |
| `PublishQuota.HourlyQuotaHolds` | api/consolev2/attention_publish_handlers.go:962-1051 | over every run any closed hour holds at most 4 participation, 16 focus and 20 items of an agent, for clocks in any order |
| `PublishQuota.AcceptedIsStored` | api/consolev2/attention_publish_handlers.go:977-1051 | after an accepted upload every item of the batch is stored with its content and nothing was removed |
| `PublishQuota.UploadCountsOnce` | api/consolev2/attention_publish_handlers.go:1064-1070 | an accepted key is used up: later it changes nothing and is answered with the first count |
| `UploadAnswers.AcceptedExactly` | api/consolev2/attention_publish_handlers.go:962-1066 | an upload is accepted exactly when ids are distinct, nothing is stored otherwise, new items are reserved, authorized and within 20, 4 and 16 of the last 3600000 ms, and the key is unused |
| `UploadAnswers.AcceptedAppends` | api/consolev2/attention_publish_handlers.go:1020-1066 | it then appends exactly its new items and its receipt |
| `UploadAnswers.RefusalsExactly` | api/consolev2/attention_publish_handlers.go:985-1066 | the condition of every refusal |
| `PublishQuota.PublishKeeps` | api/consolev2/attention_publish_handlers.go:962-1051 | an upload keeps the quotas and the uniqueness of client item ids |
| `PublishQuota.NewItemsMeaning` | api/consolev2/attention_publish_handlers.go:737-753 | conflict exactly when an item is stored with other content; otherwise exactly the items not stored |
| `PublishQuota.Uploads.NewAttentionItems` | api/consolev2/attention_publish_handlers.go:737-753 | the filtering loop |
| `PublishQuota.Uploads.SurfaceCounts` | api/consolev2/attention_publish_handlers.go:767-776 | the counting loop |
| `PublishQuota.Uploads.RecentCounts` | api/consolev2/attention_publish_handlers.go:990-1001 | the three counts of the quota query |
| `PublishQuota.Uploads.ContainsAllItems` | api/consolev2/attention_publish_handlers.go:792-803 | true exactly when every new item was reserved |
| `PublishQuota.Uploads.PublishAttentionItems` | api/consolev2/attention_publish_handlers.go:962-1066 | the transaction's statements and their order |
| `RateScript.RunKeepsUnion` | api/consolev2/attention_publish_handlers.go:95-198 | over every run of the three scripts in which a member belongs to one surface, the total set stays the disjoint union of the surface sets with equal scores |
| `RateScript.AddOneKeepsUnion` | api/consolev2/attention_publish_handlers.go:150-159 | adding an item keeps the union exactly when the other surface does not hold its member |
| `RateStored.WindowsHold` | api/consolev2/attention_publish_handlers.go:95-165 | from any state, while nothing is released or reconciled and the limiter's clock does not go back, every hour holds at most 20, 4 and 16 allowed reservations of new members |
| `RateStored.ReserveStores` | api/consolev2/attention_publish_handlers.go:103-160 | after an allowed reservation each set holds exactly its entries of the window and the named members it did not hold |
| `RateStored.AllowedExactly` | api/consolev2/attention_publish_handlers.go:103-165 | a batch is allowed exactly when 20, 4 and 16 are not exceeded; the remaining counts |
| `RateStored.ReleaseExactly` | api/consolev2/attention_publish_handlers.go:167-174 | releasing removes exactly the named members |
| `RateStored.ReconcileExactly` | api/consolev2/attention_publish_handlers.go:176-198 | reconciling leaves exactly the stored items at their stored times |
| `RateWait.ReachableWaitIsExact` | api/consolev2/attention_publish_handlers.go:95-198 | in every state the scripts can reach, whatever the clocks do, a refused fresh batch is accepted at a later time exactly when it fits every limit alone and the hinted wait has passed or the keys have expired |
| `RateWait.WaitIsExact` | api/consolev2/attention_publish_handlers.go:128-165 | the same from any state whose total set is the disjoint union of the others |
| `RateWait.HintIsLeastWait` | api/consolev2/attention_publish_handlers.go:128-165 | for a fresh batch that fits alone, the hint is the least sufficient wait exactly when it ends before the keys expire |
| `RateWait.HintTooLongForRowsAhead` | api/consolev2/attention_publish_handlers.go:176-198 | four rows stored 100 seconds ahead of the limiter make the hint 40 seconds too long |
| `RateWait.OutlivedWaitIsExact` | api/consolev2/attention_publish_handlers.go:128-165 | the hint alone is exact where every entry leaves the window before the keys expire |
| `RateWait.TimelyWaitIsExact` | api/consolev2/attention_publish_handlers.go:95-198 | so it is in every state reached with a clock that does not go back and stored times at most a minute ahead |
| `RateWait.StepKeepsLimiter` | api/consolev2/attention_publish_handlers.go:95-198 | reserve, release and reconcile keep union, surfaces, expiry and deadline bounds |
| `RateWait.WaitIsNeverTooLong` | api/consolev2/attention_publish_handlers.go:128-165 | before the hint a retry is accepted, whatever the batch, exactly when the keys have expired and it fits alone |
| `RateWait.AcceptedWhenEnoughLeave` | api/consolev2/attention_publish_handlers.go:103-165 | any batch without repeats is accepted later exactly when the keys have expired and it fits alone, or enough entries other than its own have left every set |
| `RateWait.HintTooShortForHeldMembers` | api/consolev2/attention_publish_handlers.go:107-148 | a batch that repeats a held member can be told to come back too early |
| `RateWait.ExpiryIsInvisible` | api/consolev2/attention_publish_handlers.go:160-160 | key expiry removes only entries that have left the window |
| `RateWait.ReserveOutlived` | api/consolev2/attention_publish_handlers.go:150-160 | a reservation keeps every entry's window shorter than the key's life |
| `RateWait.ReconcileOutlived` | api/consolev2/attention_publish_handlers.go:176-198 | so does a reconciliation if stored times are at most a minute ahead |
| `RateKeys.Keys.ReserveScript` | api/consolev2/attention_publish_handlers.go:95-165 | the script: purge, count, decide, add, expire |
| `RateKeys.Keys.WaitHint` | api/consolev2/attention_publish_handlers.go:128-143 | the largest boundary wait, or the whole window |
| `RateKeys.Keys.ReleaseScript` | api/consolev2/attention_publish_handlers.go:167-174 | removes the members from all three sets |
| `RateKeys.Keys.ReconcileScript` | api/consolev2/attention_publish_handlers.go:176-198 | rebuilds the sets from stored items, as a disjoint union |
| `SessionSlots.ChooseSlot` | api/consolev2/account_session_handlers.go:303-359 | the slot and the session to drop: the active or else first slot of the target, the last of the named replacement, the first without a valid session, the first duplicate |
| `SessionSlots.LimitExactly` | api/consolev2/account_session_handlers.go:342-359 | account limit exactly when no replacement is named and five distinct non-target accounts fill the slots; conflict exactly when neither target nor replacement is signed in |
| `SessionSlots.SignInKeepsDistinct` | api/consolev2/account_session_handlers.go:303-359 | placing the session keeps valid sessions on distinct agents |
| `SessionSlots.SignInSignsOutNobodyElse` | api/consolev2/account_session_handlers.go:303-359 | nobody but the target or the named replacement is signed out |
| `SessionSlots.SignInSignsIn` | api/consolev2/account_switch_email_handlers.go:239-252 | the target is signed in afterwards in the chosen slot |
| `SessionSlots.SignInLeaves` | api/consolev2/account_switch_email_handlers.go:239-252 | no other cookie and no other session changes, and the replaced one only loses its activity |
| `SessionSlots.ChooseSlotForSwitch` | api/consolev2/account_switch_email_handlers.go:225-234 | the email flow never reports the account limit, and fails only if the source is not signed in |
| `MessagePages.FollowYieldsAll` | api/consolev2/communication_handlers.go:765-851 | following next_cursor yields every message once, newest first, for any size predicate that accepts single messages |
| `MessagePages.PageIsNext` | api/consolev2/communication_handlers.go:765-851 | a page is the non-empty run right below its cursor, and its own cursor leads on from its end |
| `MessagePages.PageIsLongest` | api/consolev2/communication_handlers.go:765-851 | a page is the longest run below its cursor, up to the limit, that fits; there is none exactly when no message fits |
| `MessagePages.AnchoredWindow` | api/consolev2/communication_handlers.go:769-785 | a window around a message keeps it, is contiguous and holds at most limit messages |
| `MessagePages.AnchoredIsCentred` | api/consolev2/communication_handlers.go:769-845 | it starts with half of the limit before the message and the rest from it on, and is only shortened while it does not fit, on the longer side |
| `MessagePages.ListMessages` | api/consolev2/communication_handlers.go:765-851 | the handler's loops compute that page |
| `MessagePages.TrimToFit` | api/consolev2/communication_handlers.go:823-845 | the trimming loop |
| `WorthWatching.SelectUnique` | api/consolev2/home_worth_watching_handlers.go:311-359 | no item twice, first-pass authors distinct, second pass only after the first is exhausted, short results only when everything valid is chosen; each pass takes the first choosable row of each rule in round-robin order and passes no rule over while it has one |
| `WorthWatching.ReuseOnlyWhenNeeded` | api/consolev2/home_worth_watching_handlers.go:319-352 | whatever items the queries list, an author is reused only when every valid candidate's author is present; each row carries the author column of its item |
| `WorthWatching.TwoAuthorsMissOne` | api/consolev2/home_worth_watching_handlers.go:319-352 | were an item listed under two authors, an author would be reused while another is missing: the only selection from three such rules |
| `WorthWatching.EveryItemShown` | api/consolev2/home_worth_watching_handlers.go:292-292 | with the limit the handler passes every valid item is shown |
| `WorthWatching.CandidateCount` | api/consolev2/home_worth_watching_handlers.go:303-309 | the number of candidates |
| `WorthWatching.TakeNext` | api/consolev2/home_worth_watching_handlers.go:327-347 | the inner loop takes the first row that may be chosen |
| `MarketCursor.CursorRoundTrip` | api/consolev2/market_services_handlers.go:106-124 | decoding a cursor gives back the count and id it was made from, within the length limit |
| `MarketCursor.Base64RoundTrip` | api/consolev2/market_services_handlers.go:110-110 | unpadded URL-safe base64 decodes to what was encoded |
| `MarketCursor.ParseOfFormat` | api/consolev2/market_services_handlers.go:115-122 | parsing a formatted 64-bit number gives it back |
| `MarketCursor.ParseSigned` | api/consolev2/market_services_handlers.go:115-122 | signs are read, and numbers outside 64 bits refused |
| `MarketServices.PagesGiveListing` | api/consolev2/market_services_handlers.go:240-290 | over a fixed catalogue the pages concatenate to the whole listing |
| `MarketServices.ListingMeaning` | api/consolev2/market_services_handlers.go:245-276 | the listing holds exactly the wanted services in strictly descending (count, id) order |
| `MarketServices.LeftOutExactly` | api/consolev2/market_services_handlers.go:250-264 | a service is left out exactly when a filter excludes it or its text does not match |
| `MarketServices.NextPageStarts` | api/consolev2/market_services_handlers.go:278-288 | the cursor is empty exactly on the last page, and otherwise leads to the next service |
| `MarketServices.SelectServices` | api/consolev2/market_services_handlers.go:240-290 | the handler's loops compute that page, and the offered models without repeats in ascending order |
| `MarketServices.SortNamesMeaning` | api/consolev2/market_services_handlers.go:267-267 | sorting names without repeats gives the same names in strictly ascending order |
| `MarketServices.LoadServices` | api/consolev2/market_services_handlers.go:157-215 | loading ends against any source; the result is every row with a known provider of every page up to the one without a successor, with distinct positive ids |
| `WriteLimiter.WritesAreSpaced` | api/agentcard/handlers.go:76-98 | every half-open minute holds at most 10 admitted writes, every half-open day at most 20 |
| `WriteLimiter.MembersAreNeverShared` | api/agentcard/handlers.go:90-95 | no two admissions share a member, however often the counter has expired |
| `WriteLimiter.BothSetsAgree` | api/agentcard/handlers.go:92-96 | both sets hold exactly the admissions of their windows |
| `WriteLimiter.RefusedExactlyWhenFull` | api/agentcard/handlers.go:85-89 | a write is refused exactly when a window is full; the counts answered are those of the windows |
| `WriteLimiter.ReadsAreSpaced` | api/agentcard/handlers.go:59-74 | any half-open window holds at most the configured number of reads |
| `WriteLimiter.ReadRefusedExactlyWhenFull` | api/agentcard/handlers.go:59-74 | a read is refused exactly when its window is full |
| `WriteLimiter.ProfileKeys.Script` | api/agentcard/handlers.go:76-98 | the script's commands and their order |
| `ContextMutation.KeyAppliesOnce` | api/consolev2/control_handlers.go:230-285 | an applied key never changes anything again, and its request returns the first revision |
| `ContextMutation.ExpectedRevisionIsUsedOnce` | api/consolev2/control_handlers.go:39-50 | two writes on one expected revision never both succeed |
| `ContextMutation.ActiveContextIsLive` | api/consolev2/onboarding_handlers.go:927-985 | over every run the active context is the agent's live rows, with at most ten intents and one goal |
| `ContextMutation.AppliedIsVisible` | api/consolev2/control_handlers.go:52-62 | an applied write gets a new higher revision that shows the change, keeps the boundary unless it writes it, and leaves every older revision |
| `ContextAnswers.MutateAppliesExactly` | api/consolev2/control_handlers.go:76-285 | a write is applied exactly within its limits, on the active revision, with an unused key, after onboarding, with room for the intent or an intent to edit |
| `ContextAnswers.AppliedLeaves` | api/consolev2/control_handlers.go:76-285 | the next revision, its receipt, and no other head, revision or onboarding state |
| `ContextAnswers.ApplyWrites` | api/consolev2/control_handlers.go:85-228 | a write changes the rows it names and no others: boundaries, other goals, other intents and other agents stay |
| `ContextAnswers.MutateAnswersExactly` | api/consolev2/control_handlers.go:230-300 | the condition of every other answer |
| `ContextMutation.MutateKeeps` | api/consolev2/control_handlers.go:85-228 | every write keeps the invariant |
| `ContextMutation.ContextTables.ContextMutation` | api/consolev2/control_handlers.go:76-285 | the checks of the request and the transaction's statements, with rollback |
| `ContextMutation.ContextTables.RunHandler` | api/consolev2/control_handlers.go:85-222 | the statements of the write handlers |
| `ContextMutation.ContextTables.ActivateLatestContext` | api/consolev2/control_handlers.go:52-62 | the compiled context, the head and the onboarding row |
| `ActivityStream.ReceivedExactly` | api/consolev2/activity_handlers.go:236-325 | over any connections from a positive Last-Event-ID, each any number of writePending calls over any committed prefixes, failing or cut anywhere, the client has exactly the events from start to cursor, in order, once each |
| `ActivityStream.CatchesUp` | api/consolev2/activity_handlers.go:260-292 | once everything is committed, one uncut connection per 500 events left delivers all of them |
| `ActivityStream.UncutSendsAll` | api/consolev2/activity_handlers.go:260-292 | a call over a committed log whose writes succeed sends all that is left, up to its bound, and is truncated exactly when events remain |
| `ActivityStream.PendingFollows` | api/consolev2/activity_handlers.go:260-278 | whatever is committed at each read and wherever writing fails, a call sends what follows the cursor and leaves the cursor right behind it |
| `ActivityStream.PendingBound` | api/consolev2/activity_handlers.go:261-261 | a call sends at most 500 events |
| `ActivityStream.LoadFollows` | api/consolev2/activity_handlers.go:46-58 | the query returns the committed events right after the cursor, up to its limit |
| `ActivityStream.Stream.WritePending` | api/consolev2/activity_handlers.go:260-292 | the page loop, its failures and the truncation test |
| `ActivityStream.Stream.ServeCalls` | api/consolev2/activity_handlers.go:298-322 | one call per wake-up or poll until one fails or truncates |
| `ActivityStream.ResetSkipsNothing` | api/consolev2/activity_handlers.go:226-229 | a cursor reset skips no retained event |
| `ActivityStream.StartExactly` | api/consolev2/activity_handlers.go:190-229 | where a stream starts, with and without a Last-Event-ID |
| `ActivityStream.FollowListYieldsRest` | api/consolev2/activity_handlers.go:136-182 | following the list from a positive cursor yields every later event once, in order |

## Left out

- HTTP binding, cookies, headers, JSON shaping, logging and metrics.
- Signatures, hashing and random values: tokens are terms, nonces and switch ids are parameters; what one device link draws for its two tokens and its family id is one value, so random family ids do not collide.
- Transaction isolation and lock waits: each transaction is one atomic step, and the read that precedes a publish is a parameter of the write.
- The retention jobs of pkg/consolev2retention, which expire commands, items and idempotency rows and prune the activity log; the runs here contain no such step.
- The recovery rows and email bindings behind an account recovery: one boolean of the request; its updates of agents, principals and credentials are a step of the runs.
- The browser principals that email sign-in adds outside a switch, and the session scopes that refresh, switches and recovery rewrite.
- Validation and authorization of attention results and sources, and the canonical form of results: inputs of the transaction.
- Draft and name handling of provisioning; its effect on grants, nonces, agents, principals and sessions is modelled.
- The case-insensitive text search of the catalogue: a predicate on services.
- The account list shown next to a slot choice (uniqueConsoleAccounts).
- Contents of messages, activity events and candidates beyond what the loops read.
- The other list handlers of communication_handlers.go: same trimming pattern, easier cursors.
- The list of reserved items released after a publish (attentionItemDifference): one filtering loop.
- Onboarding writes of goals and intents; only a recompilation by another handler is a step of the context runs.
- Lua number formatting in limiter members: a member is the pair of time and sequence number.
