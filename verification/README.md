# Verified model of the vault's concurrent and stateful cores

This project models the parts of the credential vault that keep state across calls or run concurrently,
and proves what their callers rely on, for every schedule, history, input and fault.

`dafny verify dfyconfig.toml` checks everything.

## What is modelled

Concurrent code is a state machine over values: a `Step` function that runs one statement of one thread
(or lets the outside world do one thing) and `Exec`, which runs any sequence of such moves. A move that is
not possible leaves the state as it is, so a statement about all sequences is one about all interleavings.
Code that one goroutine runs by changing its fields is a class, proved against functions on values or
against the steps of the state machine.

- `KeyedMutexProtocol`, `KeyedMutex` - the reference-counted lock per key. The protocol interleaves the
  single statements of `lock` and of the unlock function for any set of threads and keys, with entries
  created, dropped and created again. The class has the two sections that run under the map lock.
- `OAuthRefresh`, `RefreshOutcomes`, `OAuthTokens` - concurrent refreshes of token rows against a provider that rotates
  refresh tokens (section 6 of RFC 6749), on top of the keyed mutex. Refresh tokens are numbered in the
  order the provider issued them. Every fault is a move: the re-read fails, the provider refuses, its
  answer to an accepted request never arrives, encryption or the update fails. `lost` holds the rows
  whose newest token was issued and never stored. `TokenService` is the code of one refresh, proved to take
  exactly the protocol's steps.
- `AuditPipeline`, `PipelineSteps`, `AuditWriter` - the bounded channel with its drop counter, the writer's select loop with
  its batch, the retries of `persist`, cancellation and shutdown. A select with several ready cases may
  take any. `Log` and `Writer` are the code, proved to be runs of the pipeline.
- `OAuthTables`, `TableOutcomes`, `OAuthServices` - the provider, config and token tables, with the service operations that
  change them and the in-memory store's loops.
- `OAuthRaces`, `OAuthOverlaps` - service calls that overlap: saves of providers and configs, completions
  and refreshes, each with its lookups and its insert or update as steps of their own, and deletions between.
- `FlowClaim` - the one-time state row of an OAuth flow under concurrent `Complete` calls.
- `Envelope` - the DWV1 blob layout, the local KEK provider and the envelope cipher.
- `ApiKeys`, `KeyOutcomes` - create or edit, reveal and delete of stored API keys over the envelope cipher, with KEKs
  being added and the active one replaced in between.
- `RateLimiter`, `LateCalls` - the per-IP fixed windows with the lazy sweep, and calls whose clock reading
  is older than a sweep before them.
- `Migrations` - the migration runner, alone and with any number of replicas that crash, lose their lock
  session or do not hear that a commit went through.
- `Retention`, `DevicePoll` - the batched retention sweep, and polling in the device authorization grant
  (sections 3.2 and 3.5 of RFC 8628).

The modules named `Outcomes` and `Steps` say of each operation what it finds, changes and leaves alone in terms
of the rows, times and bytes themselves, so that no operation is described by its own definition only.

## Where the code does not meet the promise

Each of these is a lemma with the exact condition or a run that shows it.

- `refresh` goes on with the row it was given when the re-read fails, and can then present a used-up token
  (`FailedRereadPresentsStaleToken`). A request is sound exactly when it presents the stored token and that
  token was not lost (`EveryRequestIsSound`), which a successful re-read ensures for the first half.
- A rotation whose answer or update fails leaves a row whose token the provider no longer accepts
  (`FailedUpdateLosesToken`); the stored token is current if and only if that did not happen
  (`StoredTokenIsCurrent`).
- `FindOAuthToken` takes an empty account for "any account": storing a grant without a named account would
  overwrite another account's row exactly when there is one (`EmptyAccountOverwrites`); `fetchAccount`
  never returns an empty account (`FetchAccount`).
- No service call is one transaction. Two completions for one account, two saves of a first config or two
  saves of a new provider can both find nothing and both insert (`TwoInsertsDuplicate`), and a completion or
  config save can insert after its provider was removed (`InsertAfterRemovalOrphans`). In every
  interleaving of such calls and of deletions the tables stay in order if and only if each insert has its
  place when it comes: its provider is there, and there is no row yet for the account, the provider's config
  or the key (`InOrderIffTimely`). Postgres refuses the second of two such rows by unique indexes, the
  in-memory store does not; neither refuses a row whose provider has gone.
- A completion or refresh that updates a row it read earlier succeeds even when the row is gone
  (`RemovalLosesGrant`): what was granted is stored if and only if since the lookup neither the row nor its
  provider was deleted (`LateUpdateStoresIff`).
- Of two calls that have read the row of one account, the last to write wins, and if it was granted no
  refresh token it puts the one it read back over a newer one (`LastWriterWins`); that happens if and only if
  the last update of the row since its lookup wrote another token (`LateUpdateRevertsIff`). Completions do
  not take the refresh lock, so either of the two may be a completion or a refresh.
- `allow` reads the clock before it takes the lock, so a call can carry a time before that of an earlier
  sweep. Then a removed window can still be live: the removal never shows in calls from a time on if and
  only if the window has expired at that time (`SweepShowsIff`), and `LateCallSeesSweep` says of each
  late call, as long as the removed window is live, whether it is decided differently. For every limit there is a history in which one is
  (`LateHistory`); without such calls there is none (`SweepIsInvisible`). With a limit below one the first
  hit of every window is admitted all the same, so the bounds speak of `max(1, limit)`.
- A call with an older time than the start of the window it counts in can also exceed the burst bound, by any
  number. Without an order on such calls the bound holds for every history if and only if the limit is at
  most one (`BoundNeedsOrderIff`); with it, it always holds (`BurstBound`).
- An event accepted after Run has returned is left behind, unless the channel is closed by then: all
  accepted events stay handed over in every continuation if and only if the channel is closed and empty
  (`NothingStrandsIff`). Cancelling before completing can end otherwise (`CancelFirstCanStrand`); `main`
  completes first (`GracefulShutdown`).
- "Handed to persist" is not "stored": after a cancellation a batch gets one insert instead of four, and is
  logged if that fails (`BatchFates`).

## Model

| member | source | states |
|---|---|---|
| `KeyedMutexProtocol.StepKeepsInv` | src/server/internal/service/keyedmutex.go:27-47 | one statement of any thread keeps the relation between map, counts, lock owners and positions |
| `KeyedMutexProtocol.ReachableInv` | src/server/internal/service/keyedmutex.go:27-47 | that relation holds after every interleaving of any number of threads and keys |
| `KeyedMutexProtocol.MutualExclusion` | src/server/internal/service/keyedmutex.go:37-39 | two threads inside the critical section of one key are the same thread, however often the entry was deleted and recreated |
| `KeyedMutexProtocol.RefCountIsCallers` | src/server/internal/service/keyedmutex.go:34-44 | the count of an entry is the number of callers between `refs++` and `refs--`; no entry means no such caller |
| `KeyedMutexProtocol.EntriesAreInUse` | src/server/internal/service/keyedmutex.go:8-10 | outside the map lock a key has an entry if and only if some caller counts on it |
| `KeyedMutexProtocol.IdleMeansEmpty` | src/server/internal/service/keyedmutex.go:8-10 | when all threads are idle the map is empty |
| `KeyedMutexProtocol.BlockedOnlyBySameKey` | src/server/internal/service/keyedmutex.go:8-9 | a thread cannot step if and only if it waits for the map lock while a thread is in the map section, or for its key while another is in the critical section of the same key |
| `KeyedMutexProtocol.NoDeadlock` | src/server/internal/service/keyedmutex.go:27-47 | while a call is unfinished, some unfinished call can run its next statement |
| `KeyedMutexProtocol.OtherKeysDoNotDelay` | src/server/internal/service/keyedmutex.go:8-9 | a caller whose key is free obtains it by at most `Distance` moves, none of a thread inside a critical section |
| `KeyedMutex.KeyedMutex.Enter` | src/server/internal/service/keyedmutex.go:28-35 | the section of `lock` under the map lock counts one more caller of the key, with a mutex that is new exactly when there was no entry, and leaves other keys alone |
| `KeyedMutex.KeyedMutex.Leave` | src/server/internal/service/keyedmutex.go:40-45 | the section of unlock counts the caller off and removes the entry exactly when it was the last |
| `KeyedMutex.ExitUndoesEnter` | src/server/internal/service/keyedmutex.go:27-47 | leaving undoes entering, whatever the map held |
| `KeyedMutex.ProtocolEnters` | src/server/internal/service/keyedmutex.go:28-35 | in the protocol the three statements of the section change the counts as `Enter` does |
| `KeyedMutex.ProtocolExits` | src/server/internal/service/keyedmutex.go:40-45 | in the protocol the three statements of the section change the counts as `Leave` does |
| `OAuthRefresh.StepKeepsInv` | src/server/internal/service/oauthtoken.go:154-243 | every step of every caller, faults included, keeps the relation between mutex, calls, rows, provider and lost tokens |
| `OAuthRefresh.OneHolder` | src/server/internal/service/oauthtoken.go:158-162 | two calls that hold the same row between re-read and store are one call |
| `OAuthRefresh.StoredTokenIsCurrent` | src/server/internal/service/oauthtoken.go:158-237 | with no call between answer and store, the stored refresh token is the provider's current one if and only if the newest one was not lost |
| `OAuthRefresh.EveryRequestIsSound` | src/server/internal/service/oauthtoken.go:158-187 | a request presents the current token if and only if it presents the stored one and that was not lost; after a successful re-read it presents the stored one, and only when the stored access token is no longer live |
| `OAuthRefresh.RefreshesOfOneRowDoNotOverlap` | src/server/internal/service/oauthtoken.go:158-162 | at most one call per row is between its re-read and the end of its store |
| `OAuthRefresh.NoStaleRequest` | src/server/internal/service/oauthtoken.go:158-172 | in every interleaving without failed re-reads, failed updates and unheard answers, every request presents the provider's current token |
| `OAuthRefresh.FailedRereadPresentsStaleToken` | src/server/internal/service/oauthtoken.go:163-172 | a run of two callers in which a failed re-read makes the second present a used-up token |
| `OAuthRefresh.FailedUpdateLosesToken` | src/server/internal/service/oauthtoken.go:220-237 | a run in which a failed update leaves the row with a token that is no longer accepted |
| `RefreshOutcomes.StartsIffDue` | src/server/internal/service/oauthtoken.go:127-151 | an idle call goes to the row's lock with a copy of the row if and only if the row has a refresh token and an expiry at most a minute away; else nothing happens |
| `RefreshOutcomes.RereadDecides` | src/server/internal/service/oauthtoken.go:163-172 | the row read again is one of the same user, provider and account; if it is live for more than a minute the refresh ends, else that row is refreshed |
| `RefreshOutcomes.UndisturbedRefresh` | src/server/internal/service/oauthtoken.go:174-242 | a refresh that meets no fault makes one request with the stored token and leaves the row with the granted expiry and the rotated or kept token, and every other row alone; a refusal changes no row |
| `OAuthTokens.TokenService.NeedsRefresh` | src/server/internal/service/oauthtoken.go:124-149 | a call goes on to refresh exactly when provider and config are found, there is a refresh token and the access token expires within a minute, and fails exactly when a lookup that is due fails; the protocol starts the same calls |
| `OAuthTokens.TokenService.Exchange` | src/server/internal/service/oauthtoken.go:174-237 | the row is renewed, keeping its refresh token unless a new one was issued, if and only if every part succeeds, and rows and provider end as by the protocol's steps |
| `OAuthTokens.TokenService.Refresh` | src/server/internal/service/oauthtoken.go:154-243 | the section under the lock ends with the protocol's rows and provider, and its result is the live row found again, the renewed row, or a failure with the rows unchanged |
| `AuditWriter.Log.constructor` | src/server/internal/audit/log.go:28-36 | the capacity is at least one and the channel starts empty and open |
| `AuditWriter.Log.Enqueue` | src/server/internal/audit/log.go:45-58 | an event is added at the end exactly if the channel is open with room, counted as dropped exactly if it is open and full, and leaves no trace if it is closed |
| `AuditWriter.Log.Complete` | src/server/internal/audit/log.go:61-64 | closes the channel, also when it is closed already, and keeps what it holds |
| `AuditWriter.Writer.constructor` | src/server/internal/audit/writer.go:30-41 | a batch size below one becomes 100, and the writer starts in the pipeline's initial state |
| `AuditWriter.Writer.Persist` | src/server/internal/audit/writer.go:99-137 | the outcome is the one its attempts lead to, after at most four inserts; the batch is stored exactly when one went through, and the pipeline made these steps |
| `AuditWriter.SomeSettlement` | src/server/internal/audit/writer.go:106-136 | whatever the attempts meet, they lead to an outcome within four of them |
| `AuditWriter.Writer.Flush` | src/server/internal/audit/writer.go:51-64 | an empty batch is not handed over; any other goes to `persist` on the right context and the batch is emptied |
| `AuditWriter.Writer.Receive` | src/server/internal/audit/writer.go:68-76 | the receive case takes one event, flushes a full batch, and flushes for the last time when the channel is closed and empty |
| `AuditWriter.Writer.Tick` | src/server/internal/audit/writer.go:77-78 | the ticker case hands over what is batched |
| `AuditWriter.Writer.Drain` | src/server/internal/audit/writer.go:79-95 | after cancellation all queued events are taken, with those still arriving, and handed over before Run returns |
| `AuditWriter.Writer.Run` | src/server/internal/audit/writer.go:45-97 | Run over any turns is a run of the pipeline, the one its turns determine, and returns with channel and batch empty and everything accepted so far handed over |
| `AuditPipeline.StepKeepsInv` | src/server/internal/audit/writer.go:45-137 | every step of producers, writer and shutdown keeps conservation, batch bounds and outcomes |
| `PipelineSteps.EnqueueDropsIffFull` | src/server/internal/audit/log.go:45-58 | after any run an Enqueue adds the event if and only if the channel is open with room, and raises the drop counter if and only if it is open and full |
| `PipelineSteps.ReceiveHandsOverIffFull` | src/server/internal/audit/writer.go:68-76 | receiving takes the oldest event and hands the batch over exactly when that fills it; a closed empty channel ends the loop with a last hand-over |
| `PipelineSteps.TickAndDrainHandOver` | src/server/internal/audit/writer.go:77-95 | the ticker hands over what there is; after a cancellation events are taken while there are any, then the rest is handed over for the last time |
| `PipelineSteps.FailedInsertRetriesIff` | src/server/internal/audit/writer.go:106-136 | a failed insert is retried if and only if it was not the fourth and its context is alive; else the batch is logged |
| `AuditPipeline.FifoConservation` | src/server/internal/audit/writer.go:45-97 | batches handed to persist, then the batch, then the channel are the accepted events in order; accepted, dropped and swallowed add up to the calls; the channel never exceeds its capacity |
| `AuditPipeline.BatchBounds` | src/server/internal/audit/writer.go:51-76 | every handed batch has 1 to BatchSize events, except that after a cancellation the very last may be longer |
| `AuditPipeline.OneOutcomePerBatch` | src/server/internal/audit/writer.go:99-137 | each batch has one outcome after at most four inserts; without cancellation it is inserted, or logged after four, save for the last of a run that returned; the audit rows are the inserted batches in order |
| `AuditPipeline.GracefulShutdown` | src/server/cmd/vault/main.go:165-173 | when Run returns in a run that completes before it cancels, every accepted event was handed to persist once and in order, whichever select cases were taken, and no continuation leaves one behind |
| `AuditPipeline.NothingStrandsIff` | src/server/internal/audit/writer.go:45-97 | once Run has returned, every event accepted before or later is handed over in every continuation if and only if the channel is closed and empty |
| `AuditPipeline.CancelFirstCanStrand` | src/server/internal/audit/writer.go:79-95 | for every capacity and batch size a run that cancels first returns with a continuation that leaves an event behind |
| `AuditPipeline.AcceptedIsStoredOrLost` | src/server/internal/audit/writer.go:99-137 | after a graceful shutdown the accepted events are the audit rows and the events of the batches that were logged or abandoned, each once |
| `AuditPipeline.BatchFates` | src/server/internal/audit/writer.go:104-121 | a batch settled before the cancellation is inserted or logged after four inserts; one handed over afterwards has one insert, except for the last |
| `AuditPipeline.WriterWorksOff` | src/server/cmd/vault/main.go:171-173 | once the channel is closed every writer step that does something brings the return of Run closer |
| `AuditPipeline.WriterCanGoOn` | src/server/cmd/vault/main.go:171-173 | and until Run returns there is such a step, with or without cancellation |
| `OAuthTables.RunKeepsInv` | src/server/internal/manifests/resolver.go:80-130 | over every sequence of provider, config, connect, refresh and delete operations: unique keys and provider ids, every config and token attached to one provider of its user, one config per provider, one token per account |
| `OAuthTables.ProviderIdIsStable` | src/server/internal/manifests/resolver.go:78-124 | a provider keeps its row and id through every sequence of operations that does not remove it |
| `OAuthTables.CascadeIsExact` | src/server/internal/store/memstore/memstore.go:549-580 | removing a provider removes its row, configs and tokens and no row of another user or provider |
| `TableOutcomes.ConnectTouchesOneAccount` | src/server/internal/service/oauthflow.go:263-298 | connecting an account writes its row and no other: all fields of a first row, and of an existing one access token, scopes, expiry and, if one was granted, refresh token; scopes not granted come from the config |
| `TableOutcomes.ConnectRefusedIff` | src/server/internal/service/oauthflow.go:197-210 | a completion is refused, with nothing changed, exactly without the provider or without a config of it |
| `TableOutcomes.SaveProviderTouchesOneRow` | src/server/internal/manifests/resolver.go:80-124 | a save writes the row of that user and key and no other: new, or with its id, its parent if it has one, and the new document |
| `TableOutcomes.RemoveProviderRemovesExactly` | src/server/internal/store/memstore/memstore.go:549-580 | exactly the provider's row and the user's configs and tokens of its id go |
| `TableOutcomes.DeletesOwnRow` | src/server/internal/store/memstore/memstore.go:325-336 | a config or token is deleted by its id and only by its user, and no other row |
| `TableOutcomes.RefreshTouchesOneRow` | src/server/internal/service/oauthtoken.go:220-237 | a refresh writes access token, expiry and a newly issued refresh token of its row and nothing else |
| `TableOutcomes.LookupsFindTheRow` | src/server/internal/store/memstore/memstore.go:504-516 | the lookups find the row of that user, kind and key, and the config of that user and provider id |
| `TableOutcomes.TokenFoundIsNewest` | src/server/internal/store/memstore/memstore.go:449-469 | the token of the account, or without one the newest of the user at the provider; nothing only if there is none |
| `TableOutcomes.InOrderMeans` | src/server/internal/store/memstore/memstore.go:549-580 | the relation of the tables, written out in users, keys, ids and accounts |
| `TableOutcomes.SlugsAreWords` | src/server/internal/manifests/resolver.go:19-83 | valid slugs are the non-empty words of ASCII letters, digits, underscores and hyphens |
| `OAuthTables.FoundIsTheMatch` | src/server/internal/store/memstore/memstore.go:449-469 | with a named account the lookup finds the only match, or there is none |
| `OAuthTables.EmptyAccountOverwrites` | src/server/internal/store/memstore/memstore.go:459-461 | the lookup hits a row of another account if and only if the account is empty and the user has any account there |
| `OAuthTables.LateInsertKeepsInvIff` | src/server/internal/service/oauthflow.go:279-289 | an insert decided on an earlier lookup keeps the tables in order if and only if the provider is still there and the account has no row |
| `OAuthTables.LateConfigKeepsInvIff` | src/server/internal/service/oauthconfig.go:88-105 | an inserted config keeps the tables in order if and only if its provider is there and has no config |
| `OAuthTables.LateProviderKeepsInvIff` | src/server/internal/manifests/resolver.go:108-117 | an inserted provider with a new id keeps the tables in order if and only if there is none of its key |
| `OAuthTables.SaveConfigTouchesOneRow` | src/server/internal/service/oauthconfig.go:64-123 | saving is refused exactly without a provider, or without a secret for a first config; else one row of the provider is left, a blank secret keeps the stored one, and no other row changes |
| `OAuthRaces.InOrderIffTimely` | src/server/internal/service/oauthflow.go:197-298 | in every interleaving of the lookups and writes of provider saves, config saves, completions and refreshes, and of deletions, the tables stay in order all along if and only if every insert finds its provider there and its account, config or key without a row |
| `OAuthRaces.StepKeepsInvIff` | src/server/internal/service/oauthconfig.go:70-121 | of one step: only an insert without its place disturbs the tables, never a lookup, an update or a deletion |
| `OAuthRaces.AloneIsAtomic` | src/server/internal/manifests/resolver.go:80-124 | a provider save, config save, completion or refresh that nothing comes between does what it does as one operation |
| `OAuthOverlaps.TwoInsertsDuplicate` | src/server/internal/service/oauthconfig.go:79-105 | whatever the tables, two like calls that both find nothing both insert: two equal tokens or configs, or two providers of one key with different ids |
| `OAuthOverlaps.InsertAfterRemovalOrphans` | src/server/internal/service/oauthflow.go:279-289 | a provider removed between the lookups of a completion or config save and its insert leaves a row on no provider |
| `OAuthOverlaps.RowSince` | src/server/internal/service/oauthflow.go:279-297 | after any run a token row that was read is still there if and only if no move removed it or its provider, and its refresh token is the one its last update wrote |
| `OAuthOverlaps.LateUpdateStoresIff` | src/server/internal/service/oauthflow.go:290-297 | after any run since the lookup, the update stores what was granted if and only if no move removed the row or its provider; else it changes nothing |
| `OAuthOverlaps.RemovalLosesGrant` | src/server/internal/service/oauthflow.go:290-297 | a row deleted between lookup and update leaves the account without a row though the call succeeds |
| `OAuthOverlaps.LateUpdateRevertsIff` | src/server/internal/service/oauthflow.go:290-297 | after any run since the lookup, the update of a call that was granted no refresh token changes the stored one if and only if the last update of the row in that run wrote another than the one read |
| `OAuthOverlaps.LastWriterWins` | src/server/internal/service/oauthtoken.go:220-237 | of any two completions or refreshes that read one row, the later write leaves its granted refresh token, or without one the token read, over the one the earlier stored |
| `OAuthServices.Store.GetManifestByKey` | src/server/internal/store/memstore/memstore.go:504-516 | the loop finds the row of that user, kind and key |
| `OAuthServices.Store.GetConfigByProvider` | src/server/internal/store/memstore/memstore.go:310-322 | the loop finds the user's config of that provider |
| `OAuthServices.Store.FindOAuthToken` | src/server/internal/store/memstore/memstore.go:449-469 | the loop returns a newest match, or None exactly when there is none |
| `OAuthServices.Store.DeleteManifestCascade` | src/server/internal/store/memstore/memstore.go:549-580 | the loops leave the tables `RemoveProvider` describes, and the result says whether there was a provider |
| `OAuthServices.Store.UpsertOAuth` | src/server/internal/manifests/resolver.go:80-124 | an invalid slug changes nothing; else one row is inserted or edited as `SaveProvider` says, and the tables stay in order |
| `OAuthServices.Store.DeleteProvider` | src/server/internal/manifests/resolver.go:127-130 | the cascade keeps the tables in order |
| `OAuthServices.Store.UpsertConfig` | src/server/internal/service/oauthconfig.go:64-123 | unknown provider and missing secret change nothing; a blank secret on edit keeps the stored one; the tables stay in order |
| `OAuthServices.Store.StoreGrant` | src/server/internal/service/oauthflow.go:263-298 | the account's row is overwritten, or inserted if there is none, and nothing else changes |
| `OAuthServices.Store.CompleteConnect` | src/server/internal/service/oauthflow.go:197-253 | the second half of completion stores the grant for the owner of the state row, with the config's scopes if none were granted, and keeps the tables in order |
| `OAuthServices.FetchAccount` | src/server/internal/service/oauthflow.go:301-344 | the account is what the path leads to, or the first well-known field that holds a name, else "default"; it is never empty |
| `FlowClaim.StepKeepsInv` | src/server/internal/service/oauthflow.go:173-193 | every interleaved step of Begin and Complete calls keeps rows, claims and writes consistent |
| `FlowClaim.OneClaimPerState` | src/server/internal/service/oauthflow.go:173-193 | each state row is claimed by at most one call, which presented its state value and saw it unexpired |
| `FlowClaim.TokensGoToTheirOwner` | src/server/internal/service/oauthflow.go:263-298 | every token is written by the call that claimed its row, one per row, for the user and provider of the Begin that created it |
| `FlowClaim.SuccessHasWritten` | src/server/internal/service/oauthflow.go:252-253 | after any run every call that succeeded has written one token, for the row it claimed and the user and provider of the Begin of its state value |
| `FlowClaim.UndisturbedCallWrites` | src/server/internal/service/oauthflow.go:173-298 | a call that nothing comes between uses up an unexpired row of its state value and writes one token for its user and provider |
| `FlowClaim.ExpiredCallFails` | src/server/internal/service/oauthflow.go:182-184 | with an expired row it fails and changes nothing |
| `FlowClaim.ReadFindsOrFails` | src/server/internal/service/oauthflow.go:174-180 | a call fails at its lookup exactly if no row has its state value |
| `FlowClaim.BeginInserts` | src/server/internal/service/oauthflow.go:111-117 | Begin inserts one row, for its caller and provider, that lives ten minutes |
| `Envelope.ParsePrint` | src/server/internal/crypto/crypto.go:101-147 | parsing a printed tuple of fields returns it |
| `Envelope.PrintParse` | src/server/internal/crypto/crypto.go:117-147 | any byte string the parser accepts prints back to itself |
| `Envelope.PrintInjective` | src/server/internal/crypto/crypto.go:101-112 | two different tuples never print alike |
| `Envelope.ParseReadsOffsets` | src/server/internal/crypto/crypto.go:117-147 | what each byte string parses to, or which error it gives, by its bytes at their offsets |
| `Envelope.NewLocalKekProvider` | src/server/internal/crypto/localkek.go:22-45 | an unnamed active id, no keys, a key that does not decode or is not 32 bytes, and an active id without a key are refused each with its error; otherwise the provider has exactly these keys |
| `Envelope.EnvelopeCipher.Encrypt` | src/server/internal/crypto/crypto.go:63-113 | the appended bytes parse to the active id, the nonce, what sealing the plaintext under the DEK gives and the DEK sealed under the active KEK; the only failure is an active id longer than 255 bytes |
| `Envelope.EnvelopeCipher.Wrap` | src/server/internal/crypto/localkek.go:51-69 | the wrapped DEK is nonce, tag and ciphertext under the active KEK |
| `Envelope.EnvelopeCipher.Decrypt` | src/server/internal/crypto/crypto.go:116-167 | for every input: the error of the first stage that fails - parsing, KEK, length, opening the DEK, its size, opening the ciphertext - and the opened plaintext only if none does |
| `Envelope.DecryptsIff` | src/server/internal/crypto/crypto.go:116-167 | a blob decrypts to a plaintext if and only if it parses, its KEK is known, the DEK opens under it to an AES key, and the ciphertext opens under the DEK to that plaintext |
| `Envelope.UnwrappedMeans` | src/server/internal/crypto/localkek.go:72-92 | the DEK that opens under the KEK of the id from nonce, tag and ciphertext, or which error |
| `Envelope.UnwrapWrapped` | src/server/internal/crypto/localkek.go:51-92 | unwrapping under any provider that has the key returns the DEK; a wrapped DEK is 28 bytes longer |
| `Envelope.RoundTripUnderRotation` | src/server/internal/crypto/crypto.go:63-167 | a blob made under one provider decrypts to its plaintext under every provider that maps its KEK id to the same key, whatever its active id; its length is 96 plus id plus plaintext |
| `ApiKeys.ApiKeyService.Create` | src/server/internal/service/apikey.go:71-158 | each refusal and failure with its error and an unchanged table, in the code's order; otherwise just the row of that name changes, to the given fields and the sealed secret or the one it had |
| `ApiKeys.ApiKeyService.SetFields` | src/server/internal/service/apikey.go:112-136 | header and prefix fit the kind: Basic has a header and no prefix, a header key keeps the given ones, other kinds have neither |
| `ApiKeys.ApiKeyService.Reveal` | src/server/internal/service/apikey.go:176-205 | the decrypted secret of that user's row of that name, or nothing; a failed lookup, decryption or note of the use is an error |
| `ApiKeys.ApiKeyService.Delete` | src/server/internal/service/apikey.go:208-212 | removes a row of the caller and no other |
| `ApiKeys.ApiKeyService.GetByNameRow` | src/server/internal/store/memstore/memstore.go:217-229 | the loop finds the row of that user and name |
| `KeyOutcomes.RefusesFor` | src/server/internal/service/apikey.go:76-146 | for each error exactly when Create gives it: blank name, colon, failed lookup, missing secret or password, id too long, failed write |
| `KeyOutcomes.SavedFields` | src/server/internal/service/apikey.go:106-136 | all fields a save leaves, header and prefix by the kind's stored name |
| `KeyOutcomes.EditTouchesOneRow` | src/server/internal/service/apikey.go:106-155 | an edit writes the row of that user and name, keeping its secret if none is given, and no other row |
| `KeyOutcomes.CreateTouchesOneRow` | src/server/internal/service/apikey.go:91-152 | without such a row a save writes a new one and no other |
| `KeyOutcomes.DeletesOwnRow` | src/server/internal/service/apikey.go:208-212 | a row is deleted by its id and only by its user |
| `KeyOutcomes.WireRoundTrip` | src/server/internal/contracts/credentialkind.go:30-37 | every kind is read back from its stored form and any other text is opaque |
| `KeyOutcomes.TrimMeans` | src/server/internal/service/apikey.go:76-90 | trimming takes the spaces at both ends and nothing else |
| `ApiKeys.RevealIsLastSecret` | src/server/internal/service/apikey.go:71-205 | after any history of creates, edits, deletes and KEK rotations that keep the old keys, reveal gives the last non-empty secret for that user and name since its last deletion |
| `ApiKeys.RowsAreWellFormed` | src/server/internal/service/apikey.go:71-158 | after any history there is one row per user and name, and header and prefix fit the stored kind |
| `ApiKeys.ExtendingKeepsPlain` | src/server/internal/crypto/localkek.go:72-92 | what could be read before KEKs were added or the active one replaced can be read afterwards |
| `RateLimiter.IpRateLimiter.Sweep` | src/server/internal/httpapi/limits.go:44-50 | the loop removes exactly the expired windows |
| `RateLimiter.IpRateLimiter.Allow` | src/server/internal/httpapi/limits.go:39-59 | a live window counts the hit and admits it up to the limit, otherwise a window starts with it; of other IPs only windows that have expired go, and only above 10000 windows |
| `RateLimiter.SweepIsInvisible` | src/server/internal/httpapi/limits.go:44-58 | on every history in which no call carries a time before that of an earlier sweep the limiter decides every call as one that never deletes |
| `RateLimiter.SweepLeavesOnlyLive` | src/server/internal/httpapi/limits.go:44-56 | after a call that swept, every window is younger than the period, or the one the call started |
| `LateCalls.LateCallSeesSweep` | src/server/internal/httpapi/limits.go:40-58 | the last of any number of hits of an IP after the sweep that removed its window, while that is live, is decided differently if and only if the hits in the window they make fit a budget of its own and all of them exceed the limit with those before |
| `LateCalls.CloseHitsShareWindow` | src/server/internal/httpapi/limits.go:52-58 | hits less than a period after the first share one window, so of these the k-th is decided differently if and only if k fits the budget and count + k exceeds the limit |
| `LateCalls.SweepShowsIff` | src/server/internal/httpapi/limits.go:44-58 | the removal of a window never shows in hits from a time on, whatever hits come, if and only if the window has expired at that time |
| `LateCalls.LateHistory` | src/server/internal/httpapi/limits.go:40-58 | for every limit and period there is a history with a late call in which the limiter decides otherwise than one that never deletes |
| `RateLimiter.WindowBudget` | src/server/internal/httpapi/limits.go:52-58 | in its window an IP is admitted exactly min(hits, max(1, limit)) times, on histories in which no call is earlier than a sweep before it and, for a limit above one, none of the IP than the start of the window it counts in |
| `RateLimiter.BurstBound` | src/server/internal/httpapi/limits.go:39-59 | on such histories an IP is admitted in any half-open interval as long as the period at most 2 max(1, limit) - 1 times, and at most max(1, limit) times when the period is one tick |
| `RateLimiter.BoundNeedsOrderIff` | src/server/internal/httpapi/limits.go:40-58 | for a positive period and calls in any order, save that none is earlier than a sweep before it, the bound holds on every history if and only if the limit is at most one |
| `RateLimiter.BurstBoundIsMet` | src/server/internal/httpapi/limits.go:39-59 | for every limit and period there is a history that is admitted as often as the bound for them allows |
| `Migrations.Runner.Migrate` | src/server/internal/db/migrate.go:28-94 | it succeeds if and only if the lock, every query and every transaction that is due succeed, and then all is applied; otherwise what precedes the first fault is applied, and the version of an unheard commit |
| `Migrations.SchemaIsPrefix` | src/server/internal/db/migrate.go:28-94 | after any run of any replicas, with crashes, lost locks and unheard commits, a prefix of the versions is recorded and the schema is that prefix applied once each in order |
| `Migrations.SuccessIsFinal` | src/server/internal/db/migrate.go:25-27 | a replica that reports success leaves a complete database that no later run changes |
| `Migrations.NoDuplicateUnderLock` | src/server/internal/db/migrate.go:25-41 | while no lock session is lost only the lock's holder works, and no transaction meets a version that is recorded already |
| `Migrations.UndisturbedReplicaSucceeds` | src/server/internal/db/migrate.go:28-94 | after any run that leaves the lock free an idle replica that meets no fault reports success with a complete database |
| `Retention.Store.DeleteOlderThan` | src/server/internal/store/memstore/memstore.go:640-657 | the first `batchSize` old rows go, all others stay in order, and the count says how many went |
| `Retention.Store.Sweep` | src/server/internal/audit/retention.go:69-86 | the calls that went through removed the first calls * BatchSize old rows and nothing else; it ends after the first call that was not filled, on a failure or on cancellation; undisturbed after old / BatchSize + 1 calls with just the young rows left |
| `Retention.NotOlderKeepsExactly` | src/server/internal/audit/retention.go:69-86 | the rows left are the rows at exactly the places of those not older than the cutoff, in the order they had |
| `Retention.PurgedTwice` | src/server/internal/audit/retention.go:72-80 | purging batch after batch is purging once with the sum |
| `Retention.PurgedTakesFirst` | src/server/internal/store/memstore/memstore.go:647-655 | a row stays, in its order, if and only if it is not older than the cutoff or a batch of older ones comes before it |
| `Retention.CountOldIsNumber` | src/server/internal/store/memstore/memstore.go:647-651 | the count is the number of rows created before the cutoff |
| `DevicePoll.Start` | src/cli/internal/oauthdevice/oauthdevice.go:108-110 | a missing or non-positive interval becomes five seconds, any other stays |
| `DevicePoll.OneEnding` | src/cli/internal/oauthdevice/oauthdevice.go:117-151 | what the server answers and how long things take determine the number of requests and the outcome |
| `DevicePoll.Poll` | src/cli/internal/oauthdevice/oauthdevice.go:117-151 | it ends, with the tokens or the refusal of the last request or because the next sleep ran past the deadline; every request was sent by the deadline and all earlier answers said to go on |
| `DevicePoll.IntervalNeverShrinks` | src/cli/internal/oauthdevice/oauthdevice.go:143-145 | the interval never shrinks |
| `DevicePoll.IntervalIs` | src/cli/internal/oauthdevice/oauthdevice.go:140-145 | the interval is the given one and five seconds for each slow_down so far, whatever else was answered |
| `DevicePoll.EndingMeans` | src/cli/internal/oauthdevice/oauthdevice.go:117-151 | polling goes on after authorization_pending and slow_down only, and gives up if and only if the next request would be due after the lifetime, counted from all sleeps and requests before |
| `DevicePoll.PollIsPaced` | src/cli/internal/oauthdevice/oauthdevice.go:117-151 | m requests have slept within ExpiresIn, so m * Interval <= ExpiresIn, and m * Interval + 5 m (m - 1) / 2 <= ExpiresIn when all earlier answers were slow_down |

## Left out

- AES-GCM, base64, SHA-256 and random generation are library code: AES-GCM is a pair of functions with the laws of sealing and opening, decoded keys and random bytes are inputs, and new ids and state values are inputs that did not occur before. Failing reads of random bytes are not modelled.
- HTTP, JSON, YAML, SQL text, the connection pool, telemetry, logging and audit emission of the services: plumbing. An insert of an audit batch and a migration transaction are atomic.
- Time is an integer, and a sleep takes at least as long as asked; overflow of Go's 64-bit durations is not modelled.
- OAuthRefresh.StoredTokenIsCurrent: covers one process, and runs without a reconnect or a deletion of the row during a refresh; completing a flow does not take the refresh lock. Which token such an overlap leaves in the row is stated in OAuthOverlaps.RowSince, over the tables alone and without the provider.
- OAuthRefresh.NoStaleRequest: the provider keeps its token when it refuses; revocation of a grant by the provider is a refusal of every later request.
- AuditWriter.Writer.Run: events that arrive while `persist` runs are taken to arrive before the next select, where the channel has the same room.
- ApiKeys.ApiKeyService.Create: time stamps are not part of a row; a failure to encrypt other than an id that is too long comes only from random bytes.
- Envelope.EnvelopeCipher.Encrypt: the refusal of a wrapped DEK longer than 65535 bytes is not modelled, because with the local provider a wrapped DEK has 60 bytes.
- Retention.Store.Sweep: runs with no concurrent inserts and a batch size of at least one, which NewRetention ensures.
- Migrations.Runner.Migrate: takes the sorted names without their suffix as given; getting the lock and ensuring schema and version table either succeed together or end the run.
- The Postgres store: it promises the same tables, but which of several old rows goes first and a filter of its listings differ; the in-memory store is the one modelled.
- Listing, masking, redaction, scope mapping and `FilterScopesToCatalog`, access keys, JWT verification, the portal, the commands and the self-updater: easy members or input and output.
