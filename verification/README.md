# A verified model of the token service

This project models four parts of a deployment that hands LiteLLM keys to signed-in users, and proves properties of
them over every input, every run and every interleaving:

1. the OAuth authorization server: authorize, login at Dex, the consent chain through the brokers of the requested
   services, codes, refresh tokens and the device grant, over a store whose records expire;
2. the per-user front key: a lock with a lifetime, a double-checked read, a mint and a discard, behind a Go cache that
   serves stale entries while one background refresh runs;
3. personal teams: provisioning, migration of existing keys, and what the console may do to keys;
4. usage: fetching and folding daily activity, filling the day series, latency percentiles, and the calendar that
   chooses the window.

Check everything with `dafny verify dfyconfig.toml`.

## How the model is built

The concurrent parts are transition systems. A handler performs one store verb or one network call per step; any
number of handlers interleave; what the network answers, which random names are drawn and how far the clock moves are
inputs of the steps, so the theorems quantify over all of them. `OAuthServer` is the machine of the authorization
server. It keeps two histories that no step reads: what the server did (`History`) and what the network answered
(`Notes`). What it does is stated twice over. `OAuthFlows` says what each endpoint does with a request: exactly when it
goes on, and which record it leaves for how long. Over all runs, invariants are proved in modules of their own:
`OAuthLinear` (nothing is redeemed twice), `OAuthSpent` (a failed attempt spends the credential too), `OAuthProvenance`
(everything issued is traced to a login), `OAuthGuards` (nothing is issued that Dex and LiteLLM did not let through),
`OAuthRefusals` (a refused refresh token stays refused), `OAuthScopes` (scopes are what the grant lookups of their own
issue said) and `OAuthDevice` (the device grant); `OAuthConsent` and `OAuthVisits` follow a request along its brokers.
`DexSession`, `FrontKey` and `KeyCache` are machines of their own.

Objects whose methods update fields are classes: `MemoryStore`, `CachedResolver`, `LiteLLM` (the teams), `Proxy` (the
migration's view of LiteLLM), `Console` and `CalendarPopover`. `MemoryStore` carries a ghost log of its effects; its
methods are proved against what that log owes a reader, and so is a plain map with deadlines, so the two cannot be
told apart. Loops over rows and pages are methods with invariants, proved against functions whose laws are lemmas.

### Hypotheses

- Clock readings do not decrease.
- `secrets.token_urlsafe` draws fresh names; SHA-256 and URL parsing are uninterpreted functions.
- `_device_settle` is one step, as it is on the in-memory store.
- `KeysAreConserved` assumes that each lock holder finishes inside `MINT_LOCK_TTL`.
- `SequentialSessionsAreSound` assumes that logins and revalidations of one user do not overlap; what it says of a user
  whom Dex honours holds exactly as long as no answer that carried a rotated token was lost since the last save.
- `EveryCredentialIsTraced`, `EveryScopeWasLookedUp` and `EveryUngrantedServiceWasTried` assume that the configured
  audience is one word.
- Syncs of one personal team do not overlap; a migration runs alone.
- Money is exact (`real`), counts are integers, ranks are exact.

### Where the code does less than one might think

Each of these is a lemma, either with the exact condition or with the run that shows it:

- A client that repeats a scope in its request sends the user to the same broker twice: each service is visited at
  most once if and only if no ungranted service is repeated (`AtMostOneVisitEachIffNoRepeats`,
  `ARepeatedScopeIsVisitedTwice`).
- The space-joined scope string splits back to the same list if and only if every scope is a nonempty word
  (`JoinRoundTripsExactlyForWords`).
- When Dex rotates the token and its answer is lost, the next revalidation refuses a user whom Dex honours and drops the
  record (`ALostRotationGetsAnHonouredUserRefused`); without overlap a user whom Dex honours passes if and only if the
  record is live and no such answer was lost since it was saved (`HonouredUsersAreHonouredExactly`).
- A revalidation that overlaps a login refuses a user whom Dex honours (`AnOverlappingLoginGetsAnHonouredUserRefused`),
  and a user who never refreshed can hold a live refresh token after the stored Dex token has expired
  (`ARefreshTokenOutlivesItsDexToken`).
- A refusal by Dex ends a refresh token unless a sibling request has taken it before: such a sibling, which Dex still
  honoured, may answer for it afterwards (`AHeldTokenIsStillAnswered`). While the token is still in the store when it is
  refused, no pair is ever answered for it (`RefusalEndsTheToken`).
- A holder that outlives its lock loses a key (`AHolderThatOutlivesItsLockLosesAKey`).
- A Go caller that found the cache cold can get an error although another call has cached the sub meanwhile
  (`AColdCallMayFailOnACachedSub`).
- JavaScript reads the years 0 to 99 as 1900 to 1999: month grids are right if and only if the year is outside them
  (`GridColumnsAreWeekdays`), months tile if and only if the step does not cross their border (`MonthsTile`), and "Last
  month" is empty exactly in January of the year 100 (`PresetsAreSound`).
- The browser does not pad years. Its text is the ISO text, among the years 0 to 9999, if and only if the year is at
  least 1000 (`UtcDateStringIsIso`), and over the years lo to hi its order is that of the days if and only if lo and hi
  have equally many digits (`BrowserTextFollowsDaysExactly`); 999-12-31 comes after 1000-01-01
  (`UnpaddedYearsMisorder`).
- A default start below 0001-01-01 escapes as an overflow instead of a refusal (`AcceptedWindows`), the prior window
  exists if and only if it does not reach below that date (`PriorWindowAdjoins`), and filling a series up to 9999-12-31
  overflows (`ZeroFill`).
- A key whose row carries no text token is never moved, so after a migration in which no call fails a second one has
  nothing to plan if and only if every row that classifies carries one (`ASmoothRunLeavesTheTokenless`).
- The migration fetches a listing whole if and only if it has at most 20000 rows (`HonestListingIsFetched`).
- An empty status is shown as "unknown" but counted as a failure (`AnEmptyStatusIsAnUnknownFailure`).

## Model

| member | source | states |
|---|---|---|
| OAuthLinear.CredentialsAreLinear | src/api/app/oauth_as/routes.py:251-767 | in every interleaving no pending request, chain, code, refresh token or right to one is in two places (store or handler); a code, a refresh token and a device code are each answered with at most one token pair and are gone once answered; a request gets at most one code |
| OAuthLinear.StepKeepsLinear | src/api/app/oauth_as/routes.py:286-467 | every single step of every handler keeps that invariant |
| OAuthLinear.TakeRefreshKeepsLinear | src/api/app/oauth_as/routes.py:740-750 | taking a refresh token moves its right from the store into one handler, whoever else has read it before |
| OAuthSpent.PresentingSpends | src/api/app/oauth_as/routes.py:309-767 | after any run, a login state, broker state, code, refresh token or settled device code that is presented is out of the store in every continuation, even if the request that presented it is refused |
| OAuthSpent.StepKeepsSpent | src/api/app/oauth_as/routes.py:251-767 | no step of any handler brings back a record that has left the store |
| OAuthProvenance.EveryCredentialIsTraced | src/api/app/oauth_as/routes.py:175-767 | every code, refresh token and approved device names a user who completed a Dex login for a request of that record's client; every pair answered by code was asked for with a redirect URI that matches a registered one and a verifier of 43 to 128 unreserved characters whose digest is the challenge; scopes on refresh never exceed the predecessor's |
| OAuthProvenance.StepKeepsTraced | src/api/app/oauth_as/routes.py:206-767 | every step keeps that tracing for every record, handler and answered pair |
| OAuthProvenance.RescopeLocal | src/api/app/oauth_as/routes.py:747-750 | the scope string put on a refreshed token is a subsequence of its predecessor's and still well formed |
| OAuthGuards.NothingIsIssuedUnvetted | src/api/app/oauth_as/routes.py:198-767 | over every run: a pair is answered for a refresh token only by a handler that Dex told the user is honoured and LiteLLM that the user exists; a code exists and a device is approved only for a provisioned user; every registered URI is https with a host or loopback http, without fragment or credentials |
| OAuthGuards.StepKeepsGuarded | src/api/app/oauth_as/routes.py:198-767 | every step of every handler keeps those guards |
| OAuthRefusals.RefusalEndsTheToken | src/api/app/oauth_as/routes.py:706-731 | a refused refresh token leaves the store for good, and in no continuation is a pair answered for it but one answered before or by a sibling that had taken it; none at all if it was still stored |
| OAuthRefusals.AHeldTokenIsStillAnswered | src/api/app/oauth_as/routes.py:740-750 | that exception is real: whoever holds the right to a token goes on to answer a pair for it |
| OAuthRefusals.StoredTokensAreUnused | src/api/app/oauth_as/routes.py:706-750 | a refresh token in the store is in no handler's hands and was never answered |
| OAuthScopes.EveryScopeWasLookedUp | src/api/app/oauth_as/routes.py:456-467 | over every run the scopes of each code, refresh token and answered pair are the audience and exactly the known services that the lookups of that very issue answered to be granted: over the requested scopes for a code, over the predecessor's for a refresh, none for a device |
| OAuthScopes.LookupsDecide | src/api/app/oauth_as/grants.py:26-44 | finishing a ceremony and refreshing go on with exactly the scopes that the lookups made there answered to be granted |
| OAuthScopes.StepKeepsBacked | src/api/app/oauth_as/routes.py:387-767 | every step keeps scopes and lookups together |
| OAuthVisits.EveryUngrantedServiceWasTried | src/api/app/oauth_as/routes.py:356-453 | over every run, when a request has its code, each known service it asked for and did not find granted was visited, or its broker could not be reached |
| OAuthVisits.StepKeepsDealt | src/api/app/oauth_as/routes.py:356-467 | every step keeps the account of services visited, passed over and still to visit |
| OAuthFlows.AuthorizeDecides | src/api/app/oauth_as/routes.py:251-293 | an authorize request is accepted if and only if the client is known, a registered URI matches, every scope is known, a code is asked for and the challenge is 43 base64url characters |
| OAuthFlows.AcceptedRequestsAreOpened | src/api/app/oauth_as/routes.py:286-306 | an accepted request is kept for 600 s with what was asked, and its client for 90 days from then |
| OAuthFlows.LoginDecides | src/api/app/oauth_as/routes.py:309-354 | a login gets its request on if and only if the record is there, Dex names a user and LiteLLM provisions them; it is spent either way |
| OAuthFlows.ListingDecides | src/api/app/oauth_as/routes.py:356-363 | the code follows at once if and only if every known service asked for is granted; otherwise exactly the others are to be visited |
| OAuthFlows.BrokersDecide | src/api/app/oauth_as/routes.py:387-453 | a reachable broker gets the user under a state of 600 s, an unreachable one is passed over; either way the next service follows |
| OAuthFlows.FinishingIssuesACode | src/api/app/oauth_as/routes.py:456-467 | a finished ceremony leaves one code for its request, for 120 s |
| OAuthFlows.RedemptionDecides | src/api/app/oauth_as/routes.py:590-705 | a redemption goes on, with the code's user, client and scope, if and only if the code is live, the client its own, the redirect matches and the challenge is the digest of an admissible verifier; the code is gone either way |
| OAuthFlows.IssuingAnswers | src/api/app/oauth_as/routes.py:599-626 | issuing stores a refresh token for its lifetime and answers one pair |
| OAuthFlows.DexDecides | src/api/app/oauth_as/routes.py:706-731 | honoured goes on, refused drops the token, unreachable leaves every record as it was |
| OAuthFlows.LiteLLMDecides | src/api/app/oauth_as/routes.py:732-750 | a failed lookup leaves every record as it was; otherwise the token is taken, and the refresh goes on if and only if the user exists and the record is still there and the client's |
| OAuthFlows.RefreshDecides | src/api/app/oauth_as/routes.py:706-750 | an undisturbed refresh issues a new pair, for the same user and request, if and only if the token is live and the client's, Dex honours the user and LiteLLM has them |
| OAuthFlows.DevicesAreParked | src/api/app/oauth_as/routes.py:491-506 | a known client gets a device code and a user code for 600 s |
| OAuthFlows.ConfirmationsOpenALogin | src/api/app/oauth_as/routes.py:529-556 | a live user code opens a login for its device, for the audience alone |
| OAuthFlows.SettlingDecides | src/api/app/oauth_as/routes.py:563-587 | a waiting device is approved for the user who logged in or denied, and its user code dropped; any other stays as it is |
| OAuthFlows.PollingDecides | src/api/app/oauth_as/routes.py:751-766 | a poll gets a pair for the approving user and the audience if and only if the device is approved and the client's; a settled device is spent, a waiting or foreign one stays |
| OAuthDevice.StatusLeavesPendingOnce | src/api/app/oauth_as/routes.py:563-575 | a settled device code keeps its status over every continuation of every run, and is settled in one way only |
| OAuthDevice.DeviceRecordsAreShortLived | src/api/app/oauth_as/routes.py:491-575 | a visible device record was opened by its client less than 2 * DEVICE_TTL ago, and less than DEVICE_TTL ago while it waits |
| OAuthDevice.SettlementsOutliveRuns | src/api/app/oauth_as/routes.py:563-587 | approvals and denials made are never unmade |
| OAuthConsent.EachServiceIsVisitedInOrder | src/api/app/oauth_as/routes.py:356-467 | over every interleaving the brokers a request was sent to are a selection, in order, of the scopes it asked for, without repetition if it asked without |
| Consent.ChainNextStopsAtTheFirstReachableBroker | src/api/app/oauth_as/routes.py:387-435 | the mutual recursion ends, stops at the first broker that can be reached, and finishes exactly if none can |
| Consent.UngrantedExactly | src/api/app/oauth_as/routes.py:356-363 | the services to visit are exactly the known ones asked for whose lookup did not answer granted |
| Consent.VisitsAreTheReachableServices | src/api/app/oauth_as/routes.py:387-453 | a whole ceremony visits exactly the reachable services in order, whichever brokers fail |
| Consent.AtMostOneVisitEachIffNoRepeats | src/api/app/oauth_as/routes.py:356-363 | no service is visited twice, whatever the brokers do, if and only if the list repeats none |
| Consent.ARepeatedScopeIsVisitedTwice | src/api/app/oauth_as/routes.py:356-363 | the request that shows the repetition |
| Redirects.OnlyALoopbackPortMayDiffer | src/api/app/oauth_as/routes.py:146-195 | a presented URI matches exactly if it is equal, or both are loopback URIs and every part but the port is equal, whatever the ports are (section 7.3 of RFC 8252) |
| Redirects.RedirectMatchesIsAnEquivalence | src/api/app/oauth_as/routes.py:175-195 | matching is reflexive, symmetric and transitive, which carries the check from authorize to redemption |
| Redirects.OnlyHttpsOrLoopbackIsAllowed | src/api/app/oauth_as/routes.py:146-172 | a URI may be registered if and only if it is https with a host or http on a loopback host, with a readable port and without fragment or credentials |
| Redirects.MatchesStayAllowed | src/api/app/oauth_as/routes.py:157-195 | a URI that matches an allowed one keeps its host and is allowed unless it carries a fragment mark |
| Scopes.JoinRoundTripsExactlyForWords | src/api/app/oauth_as/routes.py:456-460 | joining and splitting is the identity if and only if all scopes are nonempty words |
| Scopes.SplitCutsAtWhiteSpace | src/api/app/oauth_as/routes.py:256-258 | splitting a scope string cuts it at each white space character and nowhere else |
| Scopes.ScopesFor | src/api/app/oauth_as/grants.py:39-44 | the loop yields the audience followed by the granted requested services in order |
| Scopes.KeptIsTheGrantedSelection | src/api/app/oauth_as/grants.py:26-44 | what stays is a subsequence of what was asked, without the audience, and contains a scope exactly if a lookup of it was granted |
| Scopes.RescopingNarrows | src/api/app/oauth_as/routes.py:747-750 | along a refresh the list only narrows and keeps the audience once, at its head |
| Scopes.IssuedScopesAreWellFormed | src/api/app/oauth_as/grants.py:39-44 | the first list has the audience at its head and otherwise requested known services only |
| MemoryStores.OwedIsTheLastLiveWrite | src/api/app/oauth_as/store.py:38-63 | a reader is owed a value exactly if some write to the slot is live and untouched since, and then that value |
| MemoryStores.PutsLastTheirLifetime | src/api/app/oauth_as/store.py:45-58 | a value put with a lifetime is answered before that many seconds have passed and not from then on |
| MemoryStores.PlainMapAnswersTheHistory | src/api/app/oauth_as/store.py:38-63 | a plain map with deadlines that never purges answers every history in the same way |
| MemoryStores.MemoryStore.Expire | src/api/app/oauth_as/store.py:45-49 | purging a kind removes dead cells only and owes every reader the same |
| MemoryStores.MemoryStore.Get | src/api/app/oauth_as/store.py:51-54 | answers what the history owes and changes nothing a reader can see |
| MemoryStores.MemoryStore.Put | src/api/app/oauth_as/store.py:56-58 | adds one write with its deadline to the history |
| MemoryStores.MemoryStore.Pop | src/api/app/oauth_as/store.py:60-63 | answers what the history owes and clears the slot |
| MemoryStores.MemoryStore.Acquire | src/api/app/oauth_as/store.py:65-70 | succeeds if and only if no live lock is held, and then writes one |
| MemoryStores.MemoryStore.Release | src/api/app/oauth_as/store.py:72-73 | drops the lock, whoever holds it |
| DexSession.SequentialSessionsAreSound | src/api/app/oauth_as/routes.py:643-687 | without overlap the stored token is the one Dex honours exactly if no rotation was lost since the last save; as long as none was, only a user Dex no longer honours is refused; after a refusal every revalidation ends without a record until the next login |
| DexSession.HonouredUsersAreHonouredExactly | src/api/app/oauth_as/routes.py:643-687 | after every run without overlap a user whom Dex honours passes the next revalidation that Dex answers if and only if the record is live and no rotation was lost |
| DexSession.ALostRotationGetsAnHonouredUserRefused | src/api/app/oauth_as/routes.py:649-720 | the run in which an answer lost after a rotation gets an honoured user refused and the record dropped |
| DexSession.AStaleRecordIsRefused | src/api/app/oauth_as/routes.py:664-687 | any live record that does not hold the token Dex honours is refused and dropped at the next answered revalidation |
| DexSession.UndisturbedRevalidation | src/api/app/oauth_as/routes.py:664-687 | a revalidation alone that Dex answers succeeds if and only if a live record holds the token Dex honours, and stores what Dex honours next |
| DexSession.RetrySucceedsIffASiblingSaved | src/api/app/oauth_as/routes.py:664-687 | the single retry succeeds if and only if a sibling has stored the token Dex honours now |
| DexSession.ARevalidationAsksTwiceAtMost | src/api/app/oauth_as/routes.py:664-687 | in every interleaving a revalidation calls Dex at most twice |
| DexSession.NoReplyChangesNothing | src/api/app/oauth_as/routes.py:643-684 | a call that gets no answer ends the revalidation and leaves the record as it was |
| DexSession.SavedTokensLastTheirLifetime | src/api/app/oauth_as/routes.py:330-684 | a saved Dex token is read back for the refresh lifetime and not after it |
| DexSession.AnOverlappingLoginGetsAnHonouredUserRefused | src/api/app/oauth_as/routes.py:330-340 | the interleaving in which a login in progress gets an honoured user refused |
| DexSession.ARefreshTokenOutlivesItsDexToken | src/api/app/oauth_as/routes.py:599-687 | a live refresh token beside an expired Dex token is refused |
| FrontKey.KeysAreConserved | src/api/app/internal.py:66-115 | in every timely interleaving mints exclude each other, keys stored are keys discarded plus the one on file, at most one more than rejections seen, and without a rejection all calls return one key |
| FrontKey.StepKeepsExclusive | src/api/app/internal.py:90-115 | lock holders exclude each other, hold the lock on file, and none mints while a key is stored |
| FrontKey.StepKeepsConserved | src/api/app/internal.py:78-115 | each step keeps the balance of stored and discarded keys |
| FrontKey.TheProbeDecides | src/api/app/internal.py:66-86 | the key on file is returned if it is not rejected, else taken off the file, and the call goes for the lock |
| FrontKey.WithoutTheLock | src/api/app/internal.py:88-94 | a call that finds the lock held waits and returns the key then on file, or "in progress" |
| FrontKey.WithTheLockAndAKey | src/api/app/internal.py:96-115 | a call that gets the lock and finds a key returns that and mints none |
| FrontKey.WithTheLockAlone | src/api/app/internal.py:96-115 | a call that gets the lock and finds none stores and returns the key it mints, or fails with the mint; the lock is free afterwards |
| FrontKey.TheLockLasts | src/api/app/internal.py:34-89 | an unreleased lock is held for exactly ten seconds |
| FrontKey.AHolderThatOutlivesItsLockLosesAKey | src/api/app/internal.py:33-115 | the run that shows why the lifetime hypothesis is needed |
| FrontKeyCall.ResolveFrontKey | src/api/app/internal.py:66-115 | a call alone against the store returns the key on file unless rejected, else mints, stores for good and frees the lock; "in progress" exactly if the lock is held, "unavailable" exactly if the mint fails |
| KeyCache.TheCacheIsSound | authz/keys.go:37-84 | in every interleaving a sub is in flight exactly if one refresh of it runs, every key answered is the resolver's for that sub, entries are never dropped and their expiry never moves back |
| KeyCache.StepKeepsOneRefresh | authz/keys.go:37-84 | every step keeps the one-to-one match of in-flight subs and background refreshes |
| KeyCache.TheCacheDecides | authz/keys.go:37-59 | a call is answered from the cache if and only if the sub is cached; before its expiry nothing else happens, from then on the sub is in flight with a new refresh exactly if it was not before |
| KeyCache.ExpiredEntriesAreRefreshed | authz/keys.go:37-84 | in every reachable state, after a call at an expired entry a refresh of that sub runs |
| KeyCache.RepliesDecide | authz/keys.go:59-84 | a fetched key is cached for the lifetime and answered in the foreground; a failed fetch leaves the cache alone; a background refresh then ends |
| KeyCache.AColdCallMayFailOnACachedSub | authz/keys.go:37-84 | the run in which a cold caller fails on a sub cached meanwhile |
| KeyCache.CachedResolver.Look | authz/keys.go:37-59 | the first critical section, by the cache alone: cold if and only if the sub is not cached, a plain hit if and only if it is and now < exp, and otherwise stale with a new refresh exactly if none is in flight |
| AccessGroups.AccessGroupsForUser | src/api/app/litellm_client.py:1164-1186 | yields, cleaned and without repeats, exactly the names of the defaults, of the user's own folded address and of each folded SSO group |
| AccessGroups.DedupKeepsTheOrder | src/api/app/litellm_client.py:1181-1186 | names are kept in the order in which they first occur |
| AccessGroups.IdsByNameIsTheLastRow | src/api/app/litellm_client.py:1211-1215 | a name has an id if and only if a complete row carries it, and then that of the last such row |
| AccessGroups.ResolveAccessGroupIds | src/api/app/litellm_client.py:1189-1229 | maps names in order to the ids that the rows give them, unknown names skipped |
| AccessGroups.WantedAreEntitled | src/api/app/litellm_client.py:1164-1229 | an id is wanted if and only if a name granted by one of the three sources has it in the last complete row of that name |
| PersonalTeams.LiteLLM.EnsurePersonalTeam | src/api/app/litellm_client.py:1232-1376 | whichever call is refused or lost: at every moment a team being created is closed and reaches entitled groups only, no attached group is removed, an unstamped team's permissions stay, no other team changes; on success the team reaches exactly the groups it had and those the user's granted names resolve to |
| PersonalTeams.LiteLLM.SyncTeam | src/api/app/litellm_client.py:1261-1376 | the same for the calls alone, and exactly when a sync succeeds |
| PersonalTeams.SyncedTeam | src/api/app/litellm_client.py:1326-1373 | a synced team has exactly its old groups and the wanted ones; if owned it ends denying all else, if not its permissions are untouched |
| PersonalTeams.OneTeamPerAddress | src/api/app/config.py:293-302 | the team id is the prefix and the folded address, so two addresses share a team if and only if they agree but for case and surrounding white space |
| PersonalTeams.SyncingAgainChangesNothing | src/api/app/litellm_client.py:1326-1373 | a second sync whose entitlements grew no further is the identity |
| KeyListing.FetchKeys | scripts/migrate-personal-teams.py:87-111 | the paging loop collects what the page-by-page definition says, for any server |
| KeyListing.TheFirstEndStopsTheFetch | scripts/migrate-personal-teams.py:87-111 | whatever the server answers, the fetch holds the rows of its pages up to the first that is short, that the server calls the last, or that is the 200th |
| KeyListing.HonestListingIsFetched | scripts/migrate-personal-teams.py:87-111 | an honest listing is fetched whole, each row once and in order, if and only if it has at most 20000 rows |
| Migration.ClassifiedAreLegal | scripts/migrate-personal-teams.py:168-199 | a move is planned exactly for a row that classifies to it; such a row is never ach's and its destination is its owner's personal team |
| Migration.PlannedExactly | scripts/migrate-personal-teams.py:168-199 | by the fields of the row: it is planned if and only if nothing it is called and no team involved is ach's, it was minted here, its owner is an address and it is not there yet; the destination is the team that the sync provisions for the owner |
| Migration.AchKeysAreSkippedFirst | scripts/migrate-personal-teams.py:168-186 | a key of ach is skipped as such, whatever else is true of the row |
| Migration.Proxy.Plan | scripts/migrate-personal-teams.py:274-288 | plans classified rows only, and all of them unless a team check failed |
| Migration.Proxy.MoveKey | scripts/migrate-personal-teams.py:306-336 | one move updates its own key only, into its own destination, right after that team was confirmed |
| Migration.Proxy.Apply | scripts/migrate-personal-teams.py:304-338 | over the whole plan and whatever calls fail: every update comes right after the confirmation of its team, is of a planned move, and nothing else changes a key |
| Migration.Migrate | scripts/migrate-personal-teams.py:240-338 | a dry run changes nothing; a run updates keys that classified and are not ach's only, each into the personal team of its owner, which exists; if no call fails it plans every row that classifies and moves every one with a text token |
| Migration.SecondRun | scripts/migrate-personal-teams.py:168-338 | after a run a key classifies again if and only if it did before and its team did not change |
| Migration.SecondRunPlansNothing | scripts/migrate-personal-teams.py:168-338 | a second run has nothing to plan if and only if every classified key changed its team |
| Migration.AFullRunLeavesNothing | scripts/migrate-personal-teams.py:274-338 | after a run that planned every row that classifies and moved every planned key a second run plans nothing |
| Migration.ASmoothRunLeavesTheTokenless | scripts/migrate-personal-teams.py:304-338 | when no call fails, a second run plans nothing if and only if every row that classifies carries a text token |
| Migration.TokenlessRowsStay | scripts/migrate-personal-teams.py:309-314 | a row without a text token is never moved, whatever else happens |
| KeyConsole.Console.ValidateKeyTeam | src/api/app/session.py:473-493 | with personal teams on the body's team is dropped, otherwise only a team the user belongs to passes; exactly when each refusal is given |
| KeyConsole.FirstIsListed | src/api/app/session.py:580-582 | a request addresses the first listed key with its id, and none exactly if no listed key has it |
| KeyConsole.Console.CreateKey | src/api/app/session.py:525-557 | exactly when a key is created and when the request is forbidden; the one new key is the user's own, in the personal team whatever the body said, or in a team the user belongs to, or in the default one |
| KeyConsole.Console.DeleteKey | src/api/app/session.py:560-597 | deletes the first listed key with the id, if managed here; an unlisted id is forbidden whether or not it exists; exactly when each reply is given |
| KeyConsole.Console.BlockKey | src/api/app/session.py:600-638 | sets the flag of the first listed key with the id, managed here or not, and nothing else; exactly when each reply is given |
| KeyConsole.Console.ChangeKeyTeam | src/api/app/session.py:641-705 | moves a listed managed key into a team of the user, with personal teams on only into the personal one; exactly when each reply is given |
| KeyConsole.RunsKeepKeysInTheirTeams | src/api/app/session.py:473-705 | over every run of requests by any users: keys of others stay, keys managed elsewhere change their flag only, and with personal teams on every key minted or moved ends in its owner's personal team |
| Metrics.SumsExchange | src/api/app/stats.py:162-193 | summing pieces by origin and then over selected origins is summing the selected pieces |
| Metrics.SumsAreTakenByFigure | src/api/app/stats.py:162-193 | each of the seven figures is summed on its own over the selected rows |
| UsageWindow.UserDailyActivity | src/api/app/litellm_client.py:760-825 | follows pages to the first that promises no more, at most 500; answers exactly their rows and totals, or fails if a page is refused |
| UsageWindow.TotalsAreRowSums | src/api/app/litellm_client.py:775-825 | when each page's totals are the sum of its rows, the totals answered are the sum of all rows |
| UsageWindow.AggregateWindow | src/api/app/stats.py:303-370 | one series entry per day in text order with the day's sum, one sum per key, undated rows unmerged |
| UsageWindow.UndatedAreListedApart | src/api/app/stats.py:162-193 | a figure is listed apart if and only if a row without a date has it |
| UsageWindow.SeriesIsUnique | src/api/app/stats.py:357 | the day sums have one ordered series only |
| UsageWindow.CutsAreInvisible | src/api/app/stats.py:162-193 | however the rows of a window are cut up and shuffled, day sums, key sums, totals and which days and keys occur stay the same |
| UsageWindow.FetchAndFold | src/api/app/stats.py:303-370 | a window fetched in pages, however cut, folds to the series, key sums and totals of the uncut window |
| UsageWindow.SameSeries | src/api/app/stats.py:354-357 | the series of the cut and the uncut window are equal |
| UsageWindow.LastUsedFromWindow | src/api/app/stats.py:373-403 | each model listed on a dated row gets a day it was used on, and none of its days comes later as text |
| StatsRanges.AcceptedWindows | src/api/app/session.py:708-736 | which requests get a window (at most 366 days), which are refused, and which overflow |
| StatsRanges.PriorWindowAdjoins | src/api/app/session.py:766-769 | the prior window exists if and only if it stays representable; it adjoins the current one and is as long |
| ZeroFilling.ZeroFill | src/api/app/stats.py:103-146 | unusable bounds pass the series through; otherwise one row per day, the day's last row or zeros; overflow exactly at the last representable date |
| ZeroFilling.FilledRowsAreTheDays | src/api/app/stats.py:126-146 | whatever the series holds, the filled window has exactly one row per day in order, and the i-th row carries the i-th day |
| ZeroFilling.RowOfIsTheLastRow | src/api/app/stats.py:126-145 | that row is the last one of the series whose date starts with the day, or zeros if none does |
| ZeroFilling.KeyedByTheFirstTen | src/api/app/stats.py:126-145 | a row is on a day if and only if the first ten characters of its date are the day's text |
| ZeroFilling.AcceptedWindowsAreFilled | src/api/app/session.py:708-736 | every window the route accepts has bounds that fill, with a row for each of its days, and overflows exactly if it ends on the last representable date |
| ZeroFilling.TextsAreInOrder | src/api/app/stats.py:354-357 | for YYYY-MM-DD dates the order of the texts is the order of the days |
| ZeroFilling.FillingConservesSums | src/api/app/stats.py:103-146 | filling conserves the sum of every metric |
| ZeroFilling.SeriesAddsUp | src/api/app/stats.py:162-193 | the day series of dated rows adds up to the rows |
| ZeroFilling.ChartAddsUpToTheHeadline | src/api/app/stats.py:103-193 | the filled chart adds up to the rows fetched, which is what the headline totals add up to |
| ZeroFilling.LatestTextIsTheLatestDay | src/api/app/stats.py:373-403 | the last use found by comparing text is the latest day of use |
| Percentiles.PercentileIsTheLeastRank | src/api/app/latency.py:46-59 | for 0 < p <= 100 the result is the least sample that at least p percent of the samples do not exceed |
| Percentiles.PercentileIsMonotone | src/api/app/latency.py:46-59 | a larger p, whatever its bounds, never gives a smaller percentile |
| Percentiles.PercentileAtTheEnds | src/api/app/latency.py:46-59 | from 0 down it is the smallest sample, from 100 up the largest |
| Percentiles.PercentileOfSamples | src/api/app/latency.py:177-189 | the same of unsorted samples after the sort |
| Percentiles.AverageOfSorted | src/api/app/latency.py:177-185 | the average of the sorted durations is that of the durations |
| Percentiles.AverageIsBounded | src/api/app/latency.py:177-185 | the average lies between any bounds on the samples |
| Percentiles.SortDescendingIsStable | src/api/app/latency.py:191-209 | ranking is descending, a permutation, and keeps the order of ties |
| LatencyFold.FoldRows | src/api/app/latency.py:138-175 | the pass counts each outcome and each model's requests, failures and durations exactly, and gathers the samples in order |
| LatencyFold.ComputeLatencyContract | src/api/app/latency.py:123-219 | the first rows up to the cap, the percentiles and the average of their samples, the outcomes by descending count and the eight models of most requests |
| LatencyFold.BothTablesAddUp | src/api/app/latency.py:138-209 | displayed outcomes and per-model requests both add up to the records folded, which are all rows if and only if every row is a record |
| LatencyFold.ModelRowsAreFair | src/api/app/latency.py:151-175 | a model has at least one request, no more failures than requests, and as figures the 50th and 95th percentile of the durations of its own requests |
| LatencyFold.TheBusiestModelsAreShown | src/api/app/latency.py:197-218 | a model left out has no more requests than any shown |
| LatencyFold.AnEmptyStatusIsAnUnknownFailure | src/api/app/latency.py:118-161 | which statuses are both unknown and failed |
| LatencyFold.SuccessInAnyCase | src/api/app/latency.py:118-121 | a status is a failure if and only if it is text other than the word "success" in any mix of cases |
| LatencyFold.WhatARowContributes | src/api/app/latency.py:62-161 | which duration, time to first token in milliseconds and rate per second a row contributes, if any, and what model and outcome it counts for |
| Calendar.YearStartIsTheFormula | src/ui/src/lib/stats-presets.ts:41-44 | counting years day by day agrees with the closed form of the calendar |
| Calendar.DayNumberCountsDays | src/ui/src/lib/stats-presets.ts:41-53 | day numbers advance by one from each date to the next |
| Calendar.DateOfInverts | src/ui/src/lib/stats-presets.ts:33-44 | every valid date is the date of its day number |
| Calendar.MonthStarts | src/ui/src/lib/stats-presets.ts:41-44 | how many days of a year lie before each month |
| Calendar.WeekdaysGoRound | src/ui/src/components/stats/DateRange.tsx:49-51 | weekdays advance by one each day, from a Thursday on 1970-01-01 |
| Calendar.IsoReadsBack | src/ui/src/lib/stats-presets.ts:33-39 | a padded ISO text reads back as its year, month and day |
| Calendar.BrowserTextReadsBack | src/ui/src/components/stats/DateRange.tsx:39-44 | so does the browser's text, whose year has no leading zero |
| Calendar.IsoOrder | src/ui/src/lib/stats-presets.ts:33-39 | padded ISO texts are ordered and distinguished as the days are |
| Calendar.UtcDateStringIsIso | src/ui/src/components/stats/DateRange.tsx:39-44 | among the years 0 to 9999 the browser's text is the ISO text if and only if the year has four digits |
| Calendar.BrowserTextOrder | src/ui/src/components/stats/DateRange.tsx:39-44 | the browser's texts of any two dates are ordered as the texts of their years, and within a year as the days |
| Calendar.BrowserTextFollowsDaysExactly | src/ui/src/components/stats/DateRange.tsx:39-44 | over all dates of the years lo to hi the texts are ordered as the days are if and only if lo and hi have equally many digits |
| Calendar.TextTurnsAtThePower | src/ui/src/components/stats/DateRange.tsx:39-44 | the pair of neighbouring days whose texts are out of order wherever the number of digits grows |
| DateRanges.PresetsAreSound | src/ui/src/lib/stats-presets.ts:41-108 | every preset at every instant spans at most 366 days, clamping is the identity, and start is no later than end except where "Last month" slips |
| DateRanges.MonthPresetsCoverTheirMonths | src/ui/src/lib/stats-presets.ts:74-108 | "Last month" is the whole month before, adjoining "This month" |
| DateRanges.RollingPresetsEndToday | src/ui/src/lib/stats-presets.ts:68-108 | "7d" and "90d" span 7 and 90 days, "30d", "Custom" and anything unknown 30, all ending today |
| DateRanges.TodayHoldsTheInstant | src/ui/src/lib/stats-presets.ts:41-44 | today is the day that holds the instant, unless its year is one of 0 to 99 |
| DateRanges.ClampKeepsTheEnd | src/ui/src/lib/stats-presets.ts:46-65 | clamping keeps the end and leaves the range, or its last 366 days if it is longer |
| DateRanges.BuildMonthGrid | src/ui/src/components/stats/DateRange.tsx:49-59 | the loops build the blanks up to the first weekday of the month, as JavaScript reads its year, followed by its days |
| DateRanges.GridShowsTheJsYear | src/ui/src/components/stats/DateRange.tsx:49-59 | the grid is that of the month as JavaScript reads its year |
| DateRanges.GridColumnsAreWeekdays | src/ui/src/components/stats/DateRange.tsx:49-59 | each day is in the column of its true weekday if and only if the year is outside 0 to 99 |
| DateRanges.MonthsTile | src/ui/src/components/stats/DateRange.tsx:88-95 | consecutive months tile the days if and only if the step does not cross the border of those years |
| DateRanges.ColumnsContinue | src/ui/src/components/stats/DateRange.tsx:49-95 | the next grid starts in the column after the last day of this one |
| DateRanges.CalendarPopover.PickDay | src/ui/src/components/stats/DateRange.tsx:97-114 | a click updates the selection as the picker's step function says and keeps it in order |
| DateRanges.SelectionIsTheLastPicks | src/ui/src/components/stats/DateRange.tsx:97-114 | after any clicks the selection is the last pick alone or the last two in order |
| DateRanges.AppliedRangesAreOrdered | src/ui/src/components/stats/DateRange.tsx:97-133 | after any clicks and month moves Apply emits exactly if a day was picked: the last pick alone or the last two in order; its texts are out of order if and only if those of its two years are, never for years of equally many digits |
| DateRanges.UnpaddedYearsMisorder | src/ui/src/components/stats/DateRange.tsx:39-44 | 999-12-31 comes after 1000-01-01 as text, so the years 999 to 1000 do not follow the days |

## Left out

- The Redis store, sessions, templates, HTTP parsing and logging: plumbing. Only the outcome of a call (answered,
  refused, lost on its way, lost on its way back) is kept.
- Cryptography: token signing, key discovery, Fernet and PKCE hashing are uninterpreted; so is the parsing of URLs.
- Interleavings inside `_device_settle`, which on Redis is a read followed by a write.
- User codes: drawn without a freshness guarantee in the model too; `_normalize_user_code`, which only cleans typed
  text, is left out.
- The Dex token put at login is modelled in `DexSession`, not again in `OAuthServer`.
- FrontKeyCall.ResolveFrontKey: is one call alone; the interleavings with other calls are in `FrontKey`.
- White space and letter case are those of ASCII.
- Floating-point rounding: `percentile` computes `p / 100 * n` in floats, and spends are summed in floats.
- The range of JavaScript dates and of its integers.
- OAuthFlows.ConfirmationsOpenALogin: starts after the verification page has compared the origin of the form.
- UsageWindow.AggregateWindow: rows without a date are kept apart, so where they sort beside a row whose date is the
  empty text is not modelled; nor are the per-model table and key aliases, which fold in the same way as the keys.
- UsageWindow.CutsAreInvisible: is about dated days; a row without a date gets an entry of its own, so cutting one up
  is visible.
- LatencyFold.ComputeLatencyContract: leaves out the echoed window.
- ZeroFilling.ZeroFill: takes whether a bound parses, and the date it parses to, as inputs.
- Metadata that arrives as text is modelled after it was parsed.
- The budget envelope written at team creation, and user creation before it: they do not touch what a team reaches.
- `authz/decide.go`, `server.go`, the admin and public pages and the OpenWork grant: short branch lists, or the
  single-use argument already proved.
