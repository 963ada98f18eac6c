# agent-gm, verified

A Dafny model of the parts of agent-gm whose correctness does not show in any one function, with proofs
of what they promise. `dafny verify dfyconfig.toml` checks all of it.

**Credentials** (`Scopes`, `Credentials`, `CredentialInvariants`, `CredentialRuns`,
`CredentialTheorems`, `CredentialAnswers`, `GrantAnswers`). The tokens, authorizations and codes are maps; a transaction is a function on
them, and the methods of `Service` take the same steps the code's transactions take. A request is a
machine that reads in one store call and writes in a later one; a run is any list of such calls, by any
number of requests. Every request, every database state and every interleaving is covered. The proofs
rest on one mutually supporting invariant (`CredentialInvariants.Sound`): a grant has exactly one live
refresh token while it is not revoked and none after, grant and tokens are revoked together, a token
family belongs to one grant, scopes stay within what was minted, refresh tokens within the deadline, and
codes and OAuth grants correspond one to one. `CredentialAnswers` and `GrantAnswers` say what each request
is answered, from what it asked and what was stored at each of its store calls, with anything in between. What makes a stale read harmless is
`CredentialInvariants.ScopesHeld`: while a refresh token stays live, its grant's scopes stand still.

**Limits** (`TokenBuckets`, `ConcurrencyLimits`, `DurableLimits`). Token levels are integers: a token is
60 000 000 000 units, the product of nanoseconds and tokens a minute, so a refill rounds nothing.

**Accounts** (`Workers`, `Supervisor`, `SupervisorRuns`, `Feed`, `FeedAgreement`). State machines at lock
granularity, beside classes whose methods are the critical sections. `SupervisorRuns` interleaves starts,
stops, rebalances and changes of the table. `FeedAgreement` joins three parts of the
program: the writer that changes a row and announces it, the feed, and the streaming client.

**Command line, addresses and audit** (`Shell`, `Cookies`, `Args`, `Profiles`, `CredentialFile`,
`Source`, `Redact`, `RedactTheorems`, with `Text`, `Order`, `Numbers` and `Wrappers` beneath). Each loop is a method proved
against a recursive function, and the properties are proved of that function.

## Where the code does not do what is said of it

- `internal/authz/service.go:412-418` says a refresh token presented on the wrong path revokes nothing.
  A spent one does: reuse is recognised before the path and the client are looked at
  (`CredentialTheorems.WrongPathRevokesIffSpent`, with a run in
  `CredentialTheorems.AMisplacedSpentTokenEndsItsGrant`). And a spent token is only recognised while it is
  unexpired (`CredentialTheorems.SpentTokenIsCaughtIffUnexpired`, with a run in
  `CredentialTheorems.AnExpiredSpentTokenIsNotCaught`).
- `internal/cli/credentials.go:100` calls `migrate` idempotent. It is, unless a profile of another server
  already has the name the `default` one should get and the file names an active profile that is not
  there (`Profiles.MigrationIsIdempotentIff`). Files this program wrote are never in that state
  (`CredentialFile.WrittenFilesAreFixed`).
- `internal/cli/credentials.go:359-362` says an update never changes which profile is active. It can make
  one active where none was, and rename an active `default` (`CredentialFile.UpdateKeepsTheChoiceIff`, with
  a file in `CredentialFile.AnUpdateCanActivate`).
- `internal/authz/source.go:95-97` says an IPv4-mapped prefix compares like an IPv4 one. It keeps its
  IPv6 length, so one longer than 32 bits is accepted and trusts nobody (`Source.MappedPrefixMeaning`).
- `internal/api/events.go:133-138` says a snapshot frame has no `state_reason`; the code sends the row's,
  and the model follows the code. A snapshot whose read fails is an empty one,
  and the stream then shows nothing but changes (`FeedAgreement.AFailedSnapshotShowsOnlyChanges`).
- The bucket's clock is read before its lock is taken. The sliding-window bound holds for every bucket
  and every stretch exactly when the readings never go back in lock order
  (`TokenBuckets.WindowsHoldIffOrdered`); in any order, what is admitted is bounded by how far they go
  forward (`TokenBuckets.WindowInAnyOrder`).
- `internal/accounts/lifecycle.go:92-98` says a rebalance fills every free slot. The flag that keeps two
  rebalances apart lets a slot go unused exactly when a step after the running one's last look freed it
  and no step since took it (`SupervisorRuns.SlotLeftAtExitIff`, with a run in
  `SupervisorRuns.AFreedSlotCanBeMissed`). Every rebalance called meanwhile finds the flag set and returns,
  and it is served by the one that holds the flag unless that is on its way out with a slot owed
  (`SupervisorRuns.CalledRebalanceServesIff`).
- `internal/accounts/workers.go:159-167` says a pause that comes before the backfill does is kept. It is
  kept exactly until a resume or a stop of the account (`Workers.PauseIsHonouredIff`): a stop forgets it.
- A stop that falls between the first step of a start and its end leaves a client no slot counts
  (`SupervisorRuns.AStoppedStartKeepsItsClient`). Without one, connected clients stay within the limit
  (`SupervisorRuns.ClientsStayWithin`).
- A streaming client that lost nothing agrees with the table exactly when the last status it was offered
  is the last one written (`FeedAgreement.AgreesIffLastOfferedIsLastWritten`). One writer of an account at
  a time is enough for that (`FeedAgreement.ClientAgreesWithTheTable`); two, which a start and the event
  loop can be, may announce in the wrong order (`FeedAgreement.TwoWritersCanDisagree`).

## Model

| member | source | states |
|---|---|---|
| Scopes.ParseScopes | internal/authz/scopes.go:94-108 | the parsed set is exactly the trimmed, non-blank entries, and nothing when any of them is unknown |
| Scopes.List | internal/authz/scopes.go:128-143 | every scope of the set once, the known ones in canonical order and any others after them alphabetically |
| Scopes.Subset | internal/authz/scopes.go:161-168 | true exactly for inclusion, in whatever order the map is visited |
| Scopes.Equal | internal/authz/scopes.go:171-175 | size and one inclusion decide equality |
| Scopes.ColumnRoundTrip | internal/authz/scopes.go:94-157 | a stored scope column parses back to the set it was rendered from |
| Scopes.ColumnCanonical | internal/authz/scopes.go:128-157 | two sets have the same column exactly when they are equal |
| Credentials.Service.InsertToken | internal/authz/service.go:250-258 | a new hash is stored, a known one refused with nothing changed |
| Credentials.Service.Mint | internal/authz/service.go:237-269 | grant, access and refresh token together or nothing at all |
| Credentials.Service.RevokeFamilyAndGrant | internal/authz/service.go:593-611 | exactly the tokens of the family or of the grant, and the grant, become revoked; every other row and every code stays as it was |
| Credentials.Service.Rotate | internal/authz/service.go:499-545 | the re-read decides: revoke on a spent or revoked token, else spend, mint two and narrow, or change nothing |
| Credentials.Service.Exchange | internal/authz/oauth.go:269-317 | a lost compare-and-set changes nothing, a won one consumes the code and mints in the same transaction |
| Credentials.Service.RevokeAuthorization | internal/authz/oauth.go:515-540 | exactly this grant and its tokens become revoked |
| Credentials.Service.RevokeSuperseded | internal/store/authz.go:476-516 | row by row, exactly the unrevoked admin grants of another secret end, and they are what is reported |
| Credentials.Service.FindRevocable | internal/authz/oauth.go:448-493 | the first kind, access before refresh, under which the value names an OAuth grant of this client |
| CredentialInvariants.FamilyIsOneGrant | internal/authz/service.go:593-611 | revoking a family, its grant and the grant's tokens is revoking one grant: a family holds no other grant's token |
| CredentialInvariants.MintKeeps | internal/authz/service.go:237-269 | minting under a fresh family keeps all of Sound and takes nothing back |
| CredentialInvariants.ExchangeKeeps | internal/authz/oauth.go:270-314 | so does an exchange, which also pairs the new grant with its code |
| CredentialInvariants.RotateKeeps | internal/authz/service.go:499-545 | so does a rotation whose plan was computed from an earlier read |
| CredentialInvariants.RevokeAllKeeps | internal/authz/oauth.go:515-540 | so does revoking any set of grants |
| CredentialInvariants.MintedIsSpentPlusOne | internal/authz/service.go:508-528 | an unrevoked grant has minted one refresh token more than it has spent |
| CredentialRuns.PhaseOutlasts | internal/authz/service.go:434-464 | what an in-flight request relies on stays true through anything others commit |
| CredentialRuns.StepKeeps | internal/authz/service.go:368-573 | every store call of every request keeps the invariant of the whole system |
| CredentialRuns.RunKeeps | internal/authz/service.go:368-573 | so every interleaving of any number of requests does |
| CredentialTheorems.ScopesOnlyShrink | internal/authz/service.go:434-464 | over every run a grant's scopes only shrink and stay within what was minted (RFC 6749 section 6); to what, is CredentialAnswers.RefreshDoesWhatIsAsked |
| CredentialTheorems.CommitRotatesIffLive | internal/authz/service.go:499-563 | a refresh that reaches its transaction rotates exactly when its token is live then; otherwise the whole grant is revoked; the scopes reported are the ones held |
| CredentialTheorems.OneRotationPerToken | internal/authz/service.go:499-508 | of all presentations of one refresh token at most one rotates it (RFC 9700 section 4.14.2) |
| CredentialTheorems.ReuseKillsTheGrant | internal/authz/service.go:578-611 | a recognised reuse leaves the grant and every token of it dead in every later state |
| CredentialTheorems.RotationArithmetic | internal/authz/service.go:508-528 | live exactly while unrevoked, at most one live token, minted = spent + 1 |
| CredentialTheorems.RevocationIsClosed | internal/authz/oauth.go:515-540 | once revoked, a grant stays dead whatever was in flight |
| CredentialTheorems.NoCallerAfterRevocation | internal/authz/service.go:663-675 | no request whose authorization read follows the revocation authenticates; who does, and with which scopes, is CredentialAnswers.AuthenticatesIff |
| CredentialTheorems.CodeMintsOnce | internal/authz/oauth.go:270-282 | a code buys at most one grant and at most one request gets it (RFC 6749 section 4.1.2) |
| CredentialTheorems.EveryGrantHasItsCode | internal/authz/oauth.go:271-294 | every OAuth grant was bought by exactly one code, and that code is consumed; with which scopes, is GrantAnswers.WhoeverWasGranted |
| CredentialTheorems.BurnedCodeNeverMints | internal/authz/oauth.go:198-221 | a code consumed by a failed binding check, as GrantAnswers.FailedBindingBurnsTheCode says it is, never buys a grant |
| CredentialTheorems.LostExchangeReplays | internal/authz/oauth.go:275-324 | an exchange that loses the compare-and-set writes nothing and ends in the replay rule |
| CredentialTheorems.ReplayKillsTheGrant | internal/authz/oauth.go:341-374 | whatever a replayed code bought is dead from then on |
| CredentialTheorems.OAuthNeverHoldsAdmin | internal/authz/oauth.go:231-239 | no OAuth grant of any reachable state holds or was minted with admin |
| CredentialTheorems.DeadlineIsAbsolute | internal/authz/service.go:214-219 | the deadline never moves, bounds every refresh token, and no refresh or authentication succeeds at or after it |
| CredentialTheorems.AccessExpiryIsNotCapped | internal/authz/service.go:214-219 | an access token's own expiry may lie past that deadline |
| CredentialTheorems.RefusalsWriteNothing | internal/authz/service.go:398-432 | a refused request changes no grant and no token; only a failed binding check may consume its code |
| CredentialTheorems.WrongPathRevokesIffSpent | internal/authz/service.go:398-426 | a token presented on the wrong path or by the wrong client ends its grant exactly when it is spent |
| CredentialTheorems.SpentTokenIsCaughtIffUnexpired | internal/authz/service.go:399-406 | presenting a spent token revokes its grant exactly while it is unexpired |
| CredentialTheorems.AMisplacedSpentTokenEndsItsGrant | internal/authz/service.go:398-426 | a run in which a token presented on the wrong path ends its grant |
| CredentialTheorems.AnExpiredSpentTokenIsNotCaught | internal/authz/service.go:399-406 | a run in which a spent token is presented after its expiry and the grant and its live token stay |
| CredentialAnswers.OthersDoNotMoveIt | internal/authz/service.go:368-573 | only its own store calls move a request, whatever else runs |
| CredentialAnswers.StoredScopesAreAsked | internal/authz/scopes.go:94-157 | a stored column asks for exactly the scopes it was written from |
| CredentialAnswers.RefreshDoesWhatIsAsked | internal/authz/service.go:384-563 | a refresh rotates to given scopes exactly when its token was good at the first read, its grant good and its own at the second, the scopes are what it held or what was asked, known and within both sets, and the token still live at the commit; then the row holds exactly them and the new tokens expire with the TTLs and the deadline |
| CredentialAnswers.WhoeverRotated | internal/authz/service.go:384-563 | every run that answers a rotation holds three such moments |
| CredentialAnswers.WhyNotRefreshed | internal/authz/service.go:384-464 | a refresh is refused for a reason exactly when that is the first thing wrong at its two reads |
| CredentialAnswers.AuthenticatesIff | internal/authz/service.go:640-695 | a value is let in exactly as its unexpired, unrevoked token's grant, good at the second read, with the scopes the grant holds then |
| CredentialAnswers.WhoeverIsLetIn | internal/authz/service.go:640-695 | every run that lets a request in holds two such moments |
| CredentialAnswers.WhyNotLetIn | internal/authz/service.go:640-675 | and it is refused for the first thing wrong at the two reads |
| GrantAnswers.ExchangeBuysWhatTheCodeSays | internal/authz/oauth.go:178-317 | an exchange is granted exactly when the code was unconsumed, unexpired, bound and not admin at the read and unconsumed at the commit; the grant is the code's client's, with the code's scopes and deadlines from the read |
| GrantAnswers.WhoeverWasGranted | internal/authz/oauth.go:178-317 | in every run whoever was granted had passed the binding check with such a code |
| GrantAnswers.FailedBindingBurnsTheCode | internal/authz/oauth.go:198-221 | a failed binding check consumes the code with no grant, unless somebody consumed it first |
| GrantAnswers.WhyNotExchanged | internal/authz/oauth.go:178-239 | what the read answers to any other code: unknown, a replay, expired, a failed binding, no scopes or scopes it cannot have |
| GrantAnswers.IssuedCodeStays | internal/store/oauth.go:608-625 | a code keeps the client, the scopes and the expiry it was issued with |
| GrantAnswers.AdminSessionHoldsWhatIsAsked | internal/authz/service.go:191-269 | an admin session is minted with exactly the scopes asked for, all four when none are, or nothing changes |
| GrantAnswers.RevokesIff | internal/authz/oauth.go:458-493 | revoking by token ends a grant exactly when the client is named and the value is a token of its own, access before refresh |
| GrantAnswers.OwnerRevokesIff | internal/authz/oauth.go:508-540 | the owner ends exactly a stored grant |
| CredentialTheorems.RevokeTokenStaysInItsClient | internal/authz/oauth.go:458-493 | revoking by token ends one OAuth grant of the named client and nothing else (RFC 7009 section 2.1) |
| CredentialTheorems.OnlyThisSecretsSessions | internal/authz/service.go:166-168 | after a start every live admin session was minted under this secret, and nothing else was ended |
| TokenBuckets.Buckets.Allow | internal/authz/limits.go:92-119 | one bucket is refilled, capped, and drained by one token, or the call refused with a wait |
| TokenBuckets.BucketsAreSeparate | internal/authz/limits.go:42-67 | no two surfaces and no two keys share a bucket |
| TokenBuckets.SlidingWindow | internal/authz/limits.go:99-114 | any stretch of any run admits at most burst + rate x elapsed, the clock never going back |
| TokenBuckets.WindowInAnyOrder | internal/authz/limits.go:93-114 | with readings in any order a stretch admits at most burst + rate x the time they go forward |
| TokenBuckets.WindowsHoldIffOrdered | internal/authz/limits.go:93-108 | the bound holds for every bucket and every stretch exactly when the readings never go back |
| TokenBuckets.BoundNeedsAnOrderedClock | internal/authz/limits.go:93-108 | with readings out of order the bound fails |
| TokenBuckets.DeletingARefusal | internal/authz/limits.go:99-118 | taking a refused call out of a run changes no other decision |
| TokenBuckets.RetryAfterHonoured | internal/authz/limits.go:115-118 | waiting out Retry-After is admitted exactly unless truncation lost time that rounding did not restore |
| TokenBuckets.RetryAfterSuffices | internal/authz/errors.go:67-78 | at sixty a minute and above it always suffices |
| ConcurrencyLimits.Limiter.Acquire | internal/authz/limits.go:160-184 | granted exactly when both limits leave room; the counters are the open leases |
| ConcurrencyLimits.Limiter.Release | internal/authz/limits.go:169-183 | frees exactly its own slot, and only once |
| ConcurrencyLimits.Limiter.InFlight | internal/authz/limits.go:187-191 | reports the number of open leases, for the key and in all |
| DurableLimits.CooldownFor | internal/authz/limits.go:348-363 | the loop is min(base x 2^(steps-1), max), never holding twice the cap |
| DurableLimits.Limiter.Check | internal/authz/limits.go:270-290 | refused exactly while the source or everyone is cooling down, for the time one of them has left |
| DurableLimits.Limiter.RecordFailure | internal/authz/limits.go:299-315 | the source's row and the shared row advance, no other row does |
| DurableLimits.CooldownIsMonotone | internal/authz/limits.go:325-343 | under an ordered clock the end of the cooldown never moves back, across window resets too |
| DurableLimits.FourSteps | internal/authz/limits.go:221-251 | four back-to-back cooldowns are the fewest that outlast the window, for every limiter there is |
| DurableLimits.FailuresPerWindow | internal/authz/limits.go:325-343 | failures recorded behind the gate: at most limit + k - 1 in a window and k steps |
| DurableLimits.EightIsReached | internal/authz/limits.go:227-235 | the bound is met by a run of the admin-secret limiter |
| DurableLimits.UngatedIsUnbounded | internal/authz/limits.go:270-315 | any number of calls whose checks all pass before any failure is recorded are all counted in one window |
| DurableLimits.CallsEndOnce | internal/authz/limits.go:270-315 | a call passes its check unless the row is cooling down, and ends once, counted or not |
| DurableLimits.FiveSteps | internal/authz/limits.go:221-251 | the fifth cooldown is the first to outlast the window by itself, for every limiter there is |
| DurableLimits.FailuresPerSharedWindow | internal/authz/limits.go:270-343 | however checks and failures overlap, at most m calls at a time: at most limit + s + m - 2 failures in a window, the s-th cooldown outlasting it |
| DurableLimits.SharedBoundIsReached | internal/authz/limits.go:227-343 | that bound is met by a run of the admin-secret limiter for every m from two up |
| DurableLimits.FailuresPerInterval | internal/authz/limits.go:325-343 | any stretch under n windows long holds at most (limit + k - 1)(n + 1) failures |
| Workers.Table.Begin | internal/accounts/workers.go:70-91 | nothing changes while a worker is live; else the account's kept or new state gets one new goroutine, about to check |
| Workers.Table.ReadPaused | internal/accounts/workers.go:129-136 | the goroutine goes on to wait exactly when it read `paused` |
| Workers.Table.Select | internal/accounts/workers.go:137-141 | either ready case of the select may be taken |
| Workers.Table.MarkDone | internal/accounts/workers.go:94-98 | the goroutine is gone and its state done |
| Workers.Table.Forget | internal/accounts/workers.go:147-156 | the account leaves the table, its state and goroutines as they were, and the cancellation follows |
| Workers.Table.Hold | internal/accounts/workers.go:168-177 | the account is paused, worker or none, and no goroutine moves |
| Workers.Table.ClearPaused | internal/accounts/workers.go:180-186 | the account is not paused and its state is owed a signal |
| Workers.Table.Signal | internal/accounts/workers.go:187-192 | a value waits for the goroutine, and the send never blocks |
| Workers.StepKeeps | internal/accounts/workers.go:70-193 | every step of every interleaving keeps the invariant |
| Workers.NoLostWakeUp | internal/accounts/workers.go:129-193 | a blocked goroutine is paused, has a value waiting, or is about to be sent one |
| Workers.ResumedRunProceeds | internal/accounts/workers.go:129-143 | once resumed, its own next two steps take it into the walk |
| Workers.OneRunEach | internal/accounts/workers.go:70-91 | one goroutine per state, and per account one that nobody is stopping |
| Workers.StoppedRunsAreEnding | internal/accounts/workers.go:147-157 | a goroutine whose state left the map is cancelled or about to be |
| Workers.OnlyAValueOrACancelWakes | internal/accounts/workers.go:137-141 | a blocked goroutine goes on only with a value it receives, and ends only when it is cancelled |
| Workers.StoppedRunEnds | internal/accounts/workers.go:94-157 | after its cancellation a blocked or walking goroutine is gone within two steps of its own, its state done |
| Workers.PausedIffItsLastCallWasAPause | internal/accounts/workers.go:147-186 | in every state an account is paused exactly when its last pause, resume or stop was a pause |
| Workers.PauseHolds | internal/accounts/workers.go:129-177 | until a stop or resume of the account it stays paused, with the same state, and no goroutine of it begins to walk |
| Workers.FirstCheckWaitsIff | internal/accounts/workers.go:70-143 | what a new goroutine's first check does, however late it comes, from the account's calls alone |
| Workers.PauseIsHonouredIff | internal/accounts/workers.go:159-177 | after a pause the next goroutine waits exactly when neither a stop nor a resume came in between |
| Workers.PauseAwaitsTheStart | internal/accounts/workers.go:159-177 | a run in which a pause before the first start is kept |
| Workers.StopForgetsAPause | internal/accounts/workers.go:147-177 | a run in which a stop forgets it |
| Supervisor.Supervisor.RunningCount | internal/accounts/supervisor.go:543-551 | the loop counts exactly the running accounts |
| Supervisor.Supervisor.StartAlone | internal/accounts/supervisor.go:423-509 | every outcome of a start: no-op, parked, slot kept or given back, row moved |
| Supervisor.Supervisor.NextParked | internal/accounts/lifecycle.go:125-139 | the first row in table order that is parked, held, idle and untried |
| Supervisor.Supervisor.Rebalance | internal/accounts/lifecycle.go:99-148 | the loop ends and is the repeated rescan of the table; a second one at once does nothing |
| Supervisor.Supervisor.SetMaxConcurrent | internal/accounts/lifecycle.go:76-81 | stops nobody, and what it starts stays within the new limit |
| Supervisor.Supervisor.SignOut | internal/accounts/supervisor.go:604-624 | ends this account, whose row is signed out, and no other, whoever gets the slot; when the sign-out cannot be recorded the account is only stopped |
| Supervisor.RebalanceIsOnePass | internal/accounts/lifecycle.go:112-147 | rescanning after every start is one pass over the original candidates, newest first |
| Supervisor.RebalanceIsGreedy | internal/accounts/lifecycle.go:92-98 | with every start succeeding exactly the newest-first prefix that fits is started and connected, and nothing else changes |
| Supervisor.RebalanceUsesEverySlot | internal/accounts/lifecycle.go:99-148 | whatever starts answer, nobody is stopped, the limit holds, and a slot stays free only with every startable candidate running |
| Supervisor.AFailedConnectGivesTheSlotBack | internal/accounts/supervisor.go:439-461 | a start that fails before it is connected frees its slot, touches no other row and leaves its own out of the parked ones |
| Supervisor.AFailedPersistKeepsTheSlot | internal/accounts/supervisor.go:462-482 | a start that fails after the connect, in persisting or in listing, leaves a parked account running, and no rebalance looks at it again |
| Supervisor.SignOutStays | internal/accounts/supervisor.go:604-624 | the rebalance after a sign-out never restarts the account signed out |
| SupervisorRuns.RaiseStaysWithin | internal/accounts/supervisor.go:423-437 | under any interleaving a step that raises the running count leaves it within the limit in force |
| SupervisorRuns.SlotSafety | internal/accounts/supervisor.go:423-437 | so while limits stay within a bound, so does the running count of every state of the run |
| SupervisorRuns.OutcomeLeavesAClient | internal/accounts/supervisor.go:439-482 | a start leaves a connected client exactly when the connect worked, whatever failed after it |
| SupervisorRuns.ClientsStayWithin | internal/accounts/supervisor.go:423-482 | so do the connected clients, while no stop of an account falls between its start and the outcome |
| SupervisorRuns.AStoppedStartKeepsItsClient | internal/accounts/supervisor.go:423-482 | a run with such a stop: two clients under a limit of one |
| SupervisorRuns.TheTableChanges | internal/store/accounts.go:185-200 | what pairing, sweeping, events and a new limit leave of the table and the limit |
| SupervisorRuns.NothingFreedNothingOwed | internal/accounts/lifecycle.go:113-140 | after the look that ends a rebalance, and until something is freed, no slot is free for an account it has not tried |
| SupervisorRuns.SlotLeftAtExitIff | internal/accounts/lifecycle.go:99-148 | over every run, the table growing, shrinking and changing order too: a rebalance exits leaving a free slot exactly when a step after its last look freed it and no later step took it; every rebalance called meanwhile found the flag set |
| SupervisorRuns.NothingTakenStaysOwed | internal/accounts/lifecycle.go:113-140 | a slot owed to the round stays owed, over every run, until a step that can take a slot or a candidate |
| SupervisorRuns.FreedAndNothingTakes | internal/accounts/lifecycle.go:99-148 | so one that a step frees is left at the end of any run whose later steps can take none |
| SupervisorRuns.ServesUnlessClosing | internal/accounts/lifecycle.go:99-148 | however it goes on, a rebalance exits only after an instant from now on at which nothing is owed to it, exactly unless it is on its way out now with something owed |
| SupervisorRuns.CalledRebalanceServesIff | internal/accounts/lifecycle.go:99-148 | over every continuation: a call that finds the flag clear always serves; one that finds it set changes nothing and is served exactly unless the holder is on its way out with something owed |
| SupervisorRuns.AFreedSlotCanBeMissed | internal/accounts/lifecycle.go:99-122 | a run in which a sign-out's slot stays unused |
| Feed.Subscription.Send | internal/accounts/state.go:286-292 | a full channel counts the new change as dropped, otherwise it is queued last |
| Feed.Subscription.Take | internal/accounts/state.go:231-233 | changes come out in the order they went in |
| Feed.Feed.Subscribe | internal/accounts/state.go:258-272 | a new, empty, separate subscription; the others are untouched |
| Feed.Feed.Followers | internal/accounts/state.go:278-285 | every open subscription that follows the account, once, and no other |
| Feed.Feed.Publish | internal/accounts/state.go:277-293 | every open subscription is offered the change once, and only those that follow the account take it |
| Feed.Feed.Close | internal/accounts/state.go:243-250 | unsubscribes once; what is queued stays readable |
| Feed.Conservation | internal/accounts/state.go:274-293 | matching publishes = delivered + buffered + dropped, over every run |
| Feed.InPublishOrder | internal/accounts/state.go:274-293 | what is read is a subsequence of what was published: no reordering, no duplicate |
| Feed.NothingLost | internal/accounts/state.go:235-237 | and all of it while the drop counter stands still |
| Feed.LosesIffBehind | internal/accounts/state.go:153-157 | a change is lost exactly when the reader is at some point more than 64 behind |
| FeedAgreement.StepKeeps | internal/accounts/supervisor.go:841-875 | every step of writers, feed and clients keeps "the last change owed is what the table says" |
| FeedAgreement.ClientAgreesWithTheTable | internal/api/events.go:70-127 | at rest, a client that subscribed first, read its snapshot second and lost nothing shows each account as the table has it |
| FeedAgreement.TheLastChangeIsCurrent | internal/accounts/supervisor.go:841-875 | while changes wait, the last of them is what the table says |
| FeedAgreement.OfferedIsShown | internal/accounts/state.go:277-293 | with any number of writers, a client that lost nothing shows the last status it was offered, or what it showed before |
| FeedAgreement.AgreesIffLastOfferedIsLastWritten | internal/accounts/supervisor.go:841-875 | so at rest it agrees with the table exactly when the last status offered is the last one written |
| FeedAgreement.AFailedSnapshotShowsOnlyChanges | internal/api/events.go:139-143 | with a failed snapshot a stream shows an account exactly when it changed meanwhile |
| FeedAgreement.DeletedAccountKeepsItsStatus | internal/accounts/lifecycle.go:162-182 | after a deletion a client goes on showing the row's last status, whatever follows short of the account's return |
| FeedAgreement.AnnouncedIffChanged | internal/accounts/supervisor.go:841-875 | a transition is announced, from the old state to the new, exactly when it changes the state or the reason |
| FeedAgreement.PairingIsAnnounced | internal/accounts/supervisor.go:308-316 | pairing is announced whatever the row was |
| FeedAgreement.AStreamShowsItsAccountOnly | internal/api/events.go:70-127 | over every run a stream of one account is offered and shows no other |
| FeedAgreement.SendMeetsAClosedOneIff | internal/accounts/state.go:243-293 | a send meets a closed subscription exactly when that was closed after the subscribers were collected |
| FeedAgreement.AFailedSnapshotShowsNothing | internal/api/events.go:139-143 | a run: a snapshot whose read failed shows nothing of any table |
| FeedAgreement.DeletionIsSilent | internal/accounts/lifecycle.go:162-182 | a run: a deleted row is announced to nobody and stays in the client's view |
| FeedAgreement.TwoWritersCanDisagree | internal/accounts/supervisor.go:841-875 | a run in which two writers of one account leave the client at the older state |
| Shell.ShellSplit | internal/cli/paste.go:142-193 | the index loop computes the token function, quotes, escapes and continuations included |
| Shell.SplitIsTheInverseOfWriting | internal/cli/paste.go:142-193 | tokens written in any mixture of bare text, quotes and backslashes, with blanks and continuations between, split back to themselves |
| Shell.EveryListCanBeWritten | internal/cli/paste.go:142-193 | every list of tokens, empty ones included, round-trips double-quoted |
| Cookies.CookiesFromCurl | internal/cli/paste.go:82-139 | the loops over tokens and pairs collect exactly what the flags say, later values winning |
| Cookies.CollectedInTwo | internal/cli/paste.go:85-139 | a command read in two complete pieces is the second read after the first |
| Cookies.OtherHeadersDoNotMatter | internal/cli/paste.go:88-123 | a header that does not mention the Cookie header, in any form of the flag, may be inserted anywhere |
| Cookies.RenderedCookiesComeBack | internal/cli/paste.go:82-193 | cookies rendered behind any of the eight forms of flag, however quoted and among any other arguments, come back |
| Cookies.ParsePaste | internal/cli/paste.go:44-76 | exactly the seven named, non-empty cookies are kept, and refused exactly when unreadable or a required one is missing |
| Cookies.PastedCommandReadsItsCookies | internal/cli/paste.go:44-59 | so do those of a pasted command, whatever blanks surround it |
| Args.ParseArgs | internal/cli/args.go:134-192 | the index loop computes the parse function, errors included |
| Args.OrderBetweenKindsDoesNotMatter | internal/cli/args.go:126-133 | what a command line comes to is fixed by its flags in order and its positionals in order |
| Args.InterleavingDoesNotMatter | internal/cli/args.go:126-133 | two command lines with the same flags and the same positionals parse alike |
| Args.SwapPositionalAndGroup | internal/cli/args.go:126-133 | a positional and a neighbouring flag group may change places before any `--` |
| Args.EveryParseHasParts | internal/cli/args.go:145-191 | every command line that parses is such a list of parts, then nothing or `--` and the rest |
| Args.RenderingParsesBack | internal/cli/args.go:134-192 | a parse written as `--name=value` flags, `--` and positionals parses back to it |
| Profiles.NamedAfterTheHost | internal/cli/credentials.go:86-98 | a profile is named after the host of its server, whatever blanks stand around it and slashes behind |
| Profiles.Migrate | internal/cli/credentials.go:114-147 | the branches rename, drop, keep and activate as the migration function says |
| Profiles.MigratedIsSettled | internal/cli/credentials.go:138-146 | the active profile is stored or empty, and a lone profile is active |
| Profiles.MigrationLosesNothing | internal/cli/credentials.go:114-137 | every profile is kept, a `default` one perhaps renamed, and dropped only for one of the same server; nothing else appears |
| Profiles.MigrationIsIdempotentIff | internal/cli/credentials.go:114-147 | twice is once exactly when the file is not stuck |
| Profiles.TwoMigrationsAreEnough | internal/cli/credentials.go:114-147 | two applications reach a fixed point |
| Profiles.MigrationIsNotIdempotent | internal/cli/credentials.go:125-140 | a file for which twice is not once |
| Profiles.ProfileForServer | internal/cli/credentials.go:615-627 | the lowest name serving the server, or none when none does |
| Profiles.FromStore | internal/cli/credentials.go:575-602 | a stored credential is the selected profile's when it serves the server, else the first's that does; refused exactly when none does |
| Profiles.ResolveLogin | internal/cli/credentials.go:506-563 | a login uses no stored token; its server is the flag, else the environment, else the selected profile's; its profile is the flag, else the environment, else named after the host |
| Profiles.ResolveCredential | internal/cli/credentials.go:498-603 | server and profile by flag, then environment, then the active profile; a stored token only goes to the server it is stored for; precedence and every refusal exactly |
| CredentialFile.Store.Load | internal/cli/credentials.go:181-204 | a missing or blank file is an empty one, a broken one an error, any other is migrated |
| CredentialFile.Store.Commit | internal/cli/credentials.go:432-444 | what is written has been migrated |
| CredentialFile.Store.SaveProfile | internal/cli/credentials.go:346-357 | the profile is stored and active afterwards, unless its name is `default` and migrates |
| CredentialFile.Store.UpdateProfile | internal/cli/credentials.go:363-373 | the profile is stored afterwards, unless its name is `default` and migrates |
| CredentialFile.Store.DeleteProfile | internal/cli/credentials.go:379-394 | the profile is gone; only a `default` one that waited for its name can stand under it |
| CredentialFile.Store.SetActiveProfile | internal/cli/credentials.go:399-409 | the profile is active afterwards; refused, with the file unchanged, exactly when it is not stored |
| CredentialFile.WrittenFilesAreFixed | internal/cli/credentials.go:432-438 | a file this program wrote is settled and read back unchanged |
| CredentialFile.UpdateKeepsTheChoiceIff | internal/cli/credentials.go:359-373 | when storing a rotated token leaves the active profile alone |
| CredentialFile.AnUpdateCanActivate | internal/cli/credentials.go:359-373 | a file with no active profile after loading, in which an update makes one active |
| CredentialFile.UpdateKeepsTheActiveProfile | internal/cli/credentials.go:359-373 | in particular whenever one is active |
| CredentialFile.OtherProfilesAreKept | internal/cli/credentials.go:346-409 | an operation touches the profile it names and at most a `default` being renamed |
| CredentialFile.OneHolderAtATime | internal/cli/credentials.go:206-342 | while one process holds the lock no other takes it or writes, and it is given up however the holder ends |
| CredentialFile.WritesAreSerial | internal/cli/credentials.go:206-342 | however processes interleave, fail and die, the file is what the committed operations make of it in commit order |
| Source.NewSourceResolver | internal/authz/source.go:72-86 | accepted exactly when every non-blank entry parses, and then exactly those prefixes |
| Source.ForwardedFor | internal/authz/source.go:204-215 | the nested loops flatten the headers in order |
| Source.IsTrusted | internal/authz/source.go:123-131 | true exactly when some prefix holds the unmapped address |
| Source.Resolve | internal/authz/source.go:135-174 | the peer, or the walk's answer when the peer is trusted; the mode says whether anything is trusted, the recorded headers are kept |
| Source.PeerIsItsHost | internal/authz/source.go:179-195 | the peer is the address of its host, brackets, port and zone aside, as IPv4 when mapped |
| Source.FallsBackToThePeer | internal/authz/source.go:135-148 | whoever's headers are not believed is counted under the peer, and as unknown exactly when there is none |
| Source.HopIsAnAddress | internal/authz/source.go:220-233 | an entry is an address, in brackets or not, else one with a port, else none |
| Source.ResolvedIsTheRule | internal/authz/source.go:6-27 | the rightmost entry that is not ours decides, an unparseable one and a list all ours leave the peer |
| Source.PrefixDoesNotMatter | internal/authz/source.go:14-20 | entries left of one that is not ours change nothing |
| Source.SpoofingDoesNotHelp | internal/authz/source.go:14-20 | so a client that sends its own header through an appending proxy cannot choose the answer |
| Source.NeverEmpty | internal/authz/source.go:22-22 | the source is never the empty string |
| Source.HeadersJoin | internal/authz/source.go:200-215 | several headers give the entries of their comma-join (RFC 7230 section 3.2.2) |
| Source.NoHeaderIsAnEmptyOne | internal/authz/source.go:204-215 | no header and one empty header give the same answer |
| Source.HostBitsDoNotMatter | internal/authz/source.go:95-98 | a prefix holds exactly the addresses of its family that share its leading bits, host bits or not |
| Source.BareAddressTrustsItself | internal/authz/source.go:100-105 | a bare address trusts itself, as IPv4 or IPv4-mapped, and nothing else |
| Source.CidrMeaning | internal/authz/source.go:89-99 | what a CIDR trusts: its family's addresses with its leading bits, nobody when it is longer than they are |
| Source.LeadingBits | internal/authz/source.go:95-99 | dropping bits divides by a power of two, and masking takes the remainder away |
| Source.MappedPrefixMeaning | internal/authz/source.go:89-99 | what an IPv4-mapped CIDR trusts, for every length |
| Order.Sort | internal/audit/redact.go:236-240 | keys taken in any order are put in the one sorted order there is |
| Order.FirstDifferenceDecides | internal/audit/redact.go:236-240 | keys come in the order of their first difference, a beginning before what it begins |
| Redact.RedactValue | internal/audit/redact.go:192-273 | the recursion, list elements in order and map fields in sorted order, key before value, computes the redaction the theorems are about |
| Redact.Payload | internal/audit/redact.go:169-181 | a nil payload is empty, any other the redacted map or the refusal |
| RedactTheorems.KeysByLettersAndDigits | internal/audit/redact.go:134-142 | keys are compared by their letters and digits alone, in lower case |
| RedactTheorems.DigitByDigit | internal/audit/redact.go:322-330 | the digits of a number are its digits, in order, and nothing else |
| RedactTheorems.OnlyBehindPointers | internal/audit/redact.go:282-294 | a value counts as a string exactly behind any number of pointers |
| RedactTheorems.PhoneRefShows | internal/audit/redact.go:332-353 | a phone number shows as two fields, the hash of its digits and the last four or fewer of them |
| RedactTheorems.StringsAreScrubbed | internal/audit/redact.go:299-320 | an accepted string is shown as a phone number, with its numbers replaced, or as it is, exactly as its pattern and length say |
| RedactTheorems.RefusalNamesItsPlace | internal/audit/redact.go:184-273 | a refusal names the path to a value that is refused for just that, the first of its list |
| RedactTheorems.DecimalReads | internal/audit/redact.go:224-224 | an index in a path is its decimal digits |
| RedactTheorems.AcceptsExactly | internal/audit/redact.go:192-273 | accepted exactly when nothing at any depth is of a refused kind |
| RedactTheorems.OutputIsClean | internal/audit/redact.go:192-273 | no forbidden key at any depth, no bytes, and under a phone key exactly the hash of its digits and the last four of them |
| RedactTheorems.OutputKeepsShape | internal/audit/redact.go:192-320 | the same keys, the same list lengths, scalars as they were, and every string scrubbed |
| RedactTheorems.OnlyHashAndLastFourShow | internal/audit/redact.go:335-353 | payloads that differ only in phone numbers hashing and ending alike have the same output or refusal |
| RedactTheorems.RefusalIsTheFirstInOrder | internal/audit/redact.go:236-250 | a refused map reports its first bad key in sorted order, whatever order it came in |

## Left out

- SHA-256, HMAC, token and salt randomness, constant-time comparison: a token hash is an injective value, the phone hash any function.
- CredentialRuns: token values and ids may collide and then roll the transaction back; only family ids are taken to be fresh. The several reads of RevokeToken are one step.
- Audit rows, observers and the rate and failure limiters inside the credential calls: they decide whether a call goes on, never what it writes.
- A store error part-way through a read phase is not modelled; inside a transaction it rolls back.
- CredentialTheorems.RevocationIsClosed: says nothing about how long an `Authenticate` that had already read the authorization goes on.
- The monotonic part of Go's clock readings, and a stored deadline of exactly the epoch, which the code reads as none.
- TokenBuckets.Buckets.Allow: exact integers stand for float64 levels, so rounding in the last bit is not captured.
- DurableLimits: the source's row and the shared row are two transactions in the code; each is atomic here and they advance together.
- Supervisor.Supervisor.StartAlone: goroutines and timers are not modelled; what clients a start leaves when a stop overlaps it is SupervisorRuns.ClientsStayWithin and SupervisorRuns.AStoppedStartKeepsItsClient.
- SupervisorRuns.SlotLeftAtExitIff: counts the accounts the rebalance has not tried; one it tried, and found no slot for, waits for the next call.
- SupervisorRuns.SlotSafety: one rebalance's test for a slot, read of the table and choice of an account are one step; the slot is tested again when it is taken.
- SupervisorRuns.ClientsStayWithin: a client counts as connected from the outcome of its start, and an answer stands for everything between the connect and the return.
- Supervisor.RebalanceIsGreedy: says what one rebalance does alone; RaiseStaysWithin and SlotSafety are the claims under interleaving.
- The newest-event order of store.Accounts is the order of the row sequence; the query itself is not modelled.
- Feed.Feed.Publish: atomic with respect to Close; in the code a send can meet a closing channel.
- FeedAgreement.SendMeetsAClosedOneIff: says when a send meets a closed subscription; what sending on its closed channel then does to the program is not modelled, and the send is skipped.
- Subscription ids do not wrap around at 64 bits, time stamps are left out of changes, and heartbeats and SSE framing are I/O.
- Cookies.RenderedCookiesComeBack: cookies given by themselves to -b or --cookie must not hold the words `cookie:`, behind which the code starts reading.
- Cookies.CookiesFromCurl: letters outside ASCII fold to themselves and offsets count characters, where Go folds all of Unicode and counts bytes.
- JSON, URL, host:port and address parsing are parameters: any function.
- Cookies.ParsePaste: the missing names are a set; their sorting for the message is left out.
- Args.ParseArgs: flag definitions are a map from name to kind; help texts, suggestions and reading values as durations or numbers are left out.
- Profiles: the profile fields other than server and the two tokens are one opaque value, and the file's version number is left out.
- CredentialFile.WritesAreSerial: covers what goes through PendingWrite; a refresh that chose its token before taking the lock (internal/cli/refresh.go:126-141) is a different protocol, and an editor outside the program holds no lock.
- RedactTheorems.OutputIsClean: text is as the patterns left it; the regular expressions, the key tables and the cutting of a string at embedded numbers are parameters.
- Redact.RedactValue: key normalisation lowers ASCII letters only, and strings are characters, not bytes.
- Pairing (internal/accounts/supervisor.go:184-356) beyond the rows it writes and announces, upload and download tickets, health reports, HTTP, MCP, SQLite and the messages client: routes, tables and I/O that would add only easy members.
