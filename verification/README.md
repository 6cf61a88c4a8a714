# Clarify: protocols, scanners and recovery, verified

A Dafny model of the parts of Clarify whose correctness is about whole runs: synchronization and
replay protocols, shared accounting, relay ownership, text scanners, recovery after a crash, and
concurrent jobs. `dafny verify dfyconfig.toml` checks everything.

The code that changes state is modelled by classes with the source's fields. Each method is proved
equal to a step function on values; the properties are lemmas about those functions and about runs
of them. The lemmas named `...IsExact` say in the caller's terms what each operation answers and
leaves behind, in both directions. Where several processes, threads or tasks share state, a run is
any interleaving of the segments that the source makes atomic, with crashes and lost replies as
steps of their own.

| files | what they model |
|---|---|
| `EscapedFields.dfy`, `RedactedFields.dfy` | `history_store.py`: finding the end of a quoted or structured value at any depth of JSON nesting, and the redaction loop around it |
| `EgressBudget.dfy` | `computer_relay_server.py`: a monthly egress budget leased to many processes |
| `AccountHistory.dfy`, `HistoryServer.dfy`, `HistorySync.dfy`, `HistoryDevice.dfy`, `HistoryWire.dfy`, `HistoryEffects.dfy`, `HistoryHonesty.dfy` | `account_history.py` with `server/cloud/service/history.py`: offline-first history, against the real server for convergence and for answers that are accepted, and against any server for safety; what each operation does to the records |
| `SnippetText.dfy`, `SnippetTrie.dfy`, `SnippetExpansion.dfy` | `dictionary_snippets.py`: canonical text with index maps, the trie on the heap, and expansion against the plain search |
| `OperationLedger.dfy`, `OperationRuns.dfy`, `OperationAnswers.dfy` | `computer_host.py`: claims, replay barrier, cancellation, revocation, restart and result cache; exactly which request is answered how |
| `RefreshClaim.dfy`, `RefreshRuns.dfy`, `RefreshAnswers.dfy` | `chatgpt_auth.py`: the refresh claim that many processes share, and exactly when a token is handed out, refreshed or refused |
| `HistorySnapshots.dfy`, `HistoryRecovery.dfy`, `HistoryRecoverySafety.dfy` | `history_store.py`: recovery from leftover snapshots |
| `PauseStream.dfy` | `local_asr_streaming.py`: recognition of a growing recording at its pauses |
| `AudioBatch.dfy`, `AudioBatchRuns.dfy`, `AudioBatchWork.dfy`, `AudioBatchEnds.dfy` | `audio_file_batch.py`: the bounded worker pool, its cancellation, what its result shows, and that it comes to an end |
| `RelayProtocol.dfy`, `Relay.dfy`, `RelayRuns.dfy`, `RelayAnswers.dfy` | `computer_relay_protocol.py` and `computer_relay_server.py`: attach proofs, owners, pending phones and tunnels; who is let in |

What the environment is trusted with:

- Signatures are ideal: one verifies only if the key's holder made it over those very bytes. Hashes
  are injective, so a digest stands for the bytes it was taken of.
- Random identifiers (pending IDs, claims, revisions, device IDs, clear IDs, record IDs) are new.
- The issuer gives a refresh token out once. A token that it gave to two accounts, even before
  either used it, would be presented once for each.
- Database transactions and file replacements are atomic; a crash may fall between any two of them.
- Unicode normalization, case folding and character classes are parameters; they turn no non-empty
  text into an empty one.

## Model

| member | source | states |
|---|---|---|
| EscapedFields.EscapedFieldValueEnd | history_store.py:174-208 | The loop over backslash runs and quotes ends just past the first quote that closes the value at its nesting depth, or reports none |
| EscapedFields.NestQuote | history_store.py:174-208 | A quote inside k JSON strings is written with 2^k - 1 backslashes, whatever conforming serializers wrote it |
| EscapedFields.DelimiterIsNestedQuote | history_store.py:174-208 | The delimiter the scanner compares with is the quote of the field's own literal as the outermost text shows it |
| EscapedFields.SerializedFieldSplit | history_store.py:174-208 | A serialized field is its delimiter, the body escaped once more than the delimiter, and the delimiter again |
| EscapedFields.ClosesAtDepth | history_store.py:199-206 | A backslash run closes a value of depth k exactly when it is 2^k - 1 above whole groups of 2^(k+1): the escaped quotes of the value never do |
| EscapedFields.ValueEndIsExact | history_store.py:174-208 | For every value, every nesting depth and any following text, the scanner stops exactly after the true closing delimiter |
| EscapedFields.ValueEndOfTruncation | history_store.py:174-208 | On a text cut anywhere before the end of the closing delimiter the scanner finds no end |
| RedactedFields.EscapedUnquotedFieldValueEnd | history_store.py:255-292 | The loop over brackets, quotes and escapes ends where the structural scan of the text stops |
| RedactedFields.UnquotedIsExact | history_store.py:255-292 | For every JSON container serialized at any depth, the scanner stops exactly behind the bracket that completes it |
| RedactedFields.RedactStep | history_store.py:295-338 | One search of the redaction loop: what is put out and where output and search go on |
| RedactedFields.RedactEscapedFields | history_store.py:295-338 | The loop puts out the redacted text that the sequence of searches defines |
| RedactedFields.SerializedSecretIsRedacted | history_store.py:325-338 | A secret serialized at any depth is replaced as a whole between its delimiters; the text before it and after it is kept |
| RedactedFields.TruncatedSecretIsRedacted | history_store.py:325-338 | A secret cut off before its closing delimiter is removed through the end of the text |
| RedactedFields.NamelessTextIsUnchanged | history_store.py:303-310 | A text in which no name is found comes out as it is |
| RedactedFields.NameWithoutValueIsKept | history_store.py:312-315 | A name that is not followed by a value is kept, and the search goes on behind it |
| RedactedFields.SerializedContainerIsRedacted | history_store.py:255-324 | A serialized object or list behind a sensitive name is replaced as a whole by the mark, and the search goes on right behind its closing bracket |
| RedactedFields.ScalarIsRedacted | history_store.py:255-324 | An unquoted scalar behind a sensitive name is replaced as a whole, up to the separator, line end or end of text behind it |
| EgressBudget.EgressBudget.Consume | computer_relay_server.py:109-148 | A write is paid from the lease or by a reservation, and changes the shared rows and the lease as specified, also when a commit fails or is uncertain |
| EgressBudget.EgressBudget.Reserve | computer_relay_server.py:118-148 | The transaction rolls the month over, refuses a clock that went back or a changed cap, and reserves a lease within the cap |
| EgressBudget.StepBalance | computer_relay_server.py:109-148 | One call moves bytes between reserved, leased and consumed and creates none |
| EgressBudget.BudgetIsSafe | computer_relay_server.py:109-148 | For any interleaving of processes, crashes and clock changes, bytes sent plus live lease credit never exceed what is reserved, nor that the cap |
| EgressBudget.BudgetHolds | computer_relay_server.py:109-148 | From a fresh database no month ever sends more than its cap |
| EgressBudget.PastMonthsAreFrozen | computer_relay_server.py:122-135 | Once the stored month passed m, the reservations of m never change again |
| EgressBudget.ReservationsAreFew | computer_relay_server.py:112-143 | With one lease size a month costs at most ceil(cap / lease) committed reservations over all processes |
| EgressBudget.LeasesAreExact | computer_relay_server.py:112-143 | With a clock that does not go back and no restart, leased accounting answers every request like a plain counter |
| EgressBudget.FreshProcessIsExact | computer_relay_server.py:112-143 | A process that starts in a fresh month accepts a write exactly when it still fits the cap |
| EgressBudget.ReservationIsModest | computer_relay_server.py:112-143 | A write is exhausted exactly when the month's rest does not cover what the lease is short of; a reservation takes at least that, at most the larger of that and one lease, and moves the stored month on |
| EgressBudget.DisagreementIsRefused | computer_relay_server.py:122-123 | An older month or another cap is refused and nothing changes |
| EgressBudget.CorruptionIsRefused | computer_relay_server.py:129-131 | A stored reservation beyond the cap is refused as such and nothing changes |
| AccountHistory.AccountDocument.Append | account_history.py:169-190 | An owned record that is new and storable is added once and its wire form queued; a buried ID, another owner or a record that cannot be stored changes nothing (the effect is `HistoryEffects.AppendIsExact`) |
| AccountHistory.AccountDocument.Delete | account_history.py:222-238 | Deleting drops record and pending entry, buries the ID and queues the deletion |
| AccountHistory.AccountDocument.Clear | account_history.py:238-251 | Clearing buries every record, empties the queues and sets the clear ID |
| AccountHistory.AccountDocument.BuildBatch | account_history.py:269-282 | The request carries the clear ID alone, or fifty deletions and as many entries, in order, as its bytes allow |
| AccountHistory.AccountDocument.Receive | account_history.py:317-398 | An accepted reply acknowledges only what was submitted, buries what the server deleted and adds its entries; a reply that does not validate or contradicts a record changes nothing |
| AccountHistory.AppendKeeps | account_history.py:169-190 | Appending keeps the document readable and consistent |
| AccountHistory.DeleteKeeps | account_history.py:222-238 | Deleting keeps it, and only adds tombstones |
| AccountHistory.ClearKeeps | account_history.py:238-251 | Clearing keeps it, and only adds tombstones |
| AccountHistory.ReceiveKeeps | account_history.py:361-391 | Whatever page is accepted, the saved document passes the reader's checks again, no tombstone is forgotten and the cursor never goes back |
| HistoryServer.SynchronizeForward | server/cloud/service/history.py:97-183 | An accepted request is carried out as a whole; rows are immutable, tombstones permanent, revisions only grow |
| HistoryServer.UpsertForward | server/cloud/service/history.py:143-157 | Inserting entries creates rows for them alone and leaves every existing row as it is |
| HistoryServer.EraseForward | server/cloud/service/history.py:158-172 | Erased IDs are tombstones, nothing else changes and nothing comes alive |
| HistoryServer.PageIsFaithful | server/cloud/service/history.py:184-207 | A page tells everything about the rows its cursor moves over and nothing untrue |
| HistorySync.RunInv | account_history.py:317-398 | The invariant between device, server and the request in flight holds in every run with lost requests and replies, local edits and other devices |
| HistorySync.Convergence | account_history.py:317-398 | Whenever nothing is left to send and no row lies beyond the cursor, the device shows exactly the server's live entries |
| HistorySync.SettledAgrees | account_history.py:317-398 | The same for any state that satisfies the invariant, also after a clear that skipped a page in flight |
| HistorySync.DroppedWorkWasCarriedOut | account_history.py:352-365 | What a reply takes out of the queues was carried out by the server |
| HistoryDevice.EveryDocumentIsConsistent | account_history.py:137-162 | Against any server at all, every reachable document has pending entries that are its records, queued deletions that are buried, and records apart from tombstones |
| HistoryDevice.DeletedStaysDeleted | account_history.py:361-391 | What was deleted on the device never comes back as a record, whatever pages arrive |
| HistoryDevice.LeavesOnlyWhenReleased | account_history.py:352-365 | Each step that shortens a queue is one of the permitted ones |
| HistoryDevice.PendingEntryIsReleased | account_history.py:352-365 | An appended entry leaves the queue only by a submitted and answered batch, a local delete or clear, or a deletion by the server |
| HistoryDevice.DeletionIsReleased | account_history.py:352-365 | A queued deletion leaves only when it was submitted and answered, or a clear covers it |
| HistoryDevice.ClearIsReleased | account_history.py:352-365 | A clear ID leaves only when that same ID was submitted and answered |
| HistoryDevice.FirstEntryFits | account_history.py:269-282 | The largest valid entry in its worst escaping and fifty of the largest deletion IDs fit the request limit |
| HistoryDevice.BatchCarriesWork | account_history.py:269-282 | Pending work without a clear ID always yields an entry to send |
| HistoryDevice.AnsweredRoundProgresses | account_history.py:269-282 | An answered round without concurrent edits leaves strictly less work, or had nothing to send |
| HistoryDevice.RoundsSettle | account_history.py:317-398 | As many answered rounds as there are units of work send all of it |
| HistoryWire.SizesAreExact | account_history.py:278-279 | The size that limits a request is the number of characters of its JSON text, with the escapes and separators of the encoder |
| HistoryWire.EscapedIsAscii | account_history.py:278-279 | That text is ASCII, so characters are bytes |
| HistoryEffects.AppendIsExact | account_history.py:169-190 | Exactly an owned, storable record whose ID is free is added, with its transcript and its final, refined or raw text, and queued last; every other append changes nothing and says why |
| HistoryEffects.AppendedStays | account_history.py:169-391 | Over any run an accepted append stays in the records as stored until a local delete, a clear or a deletion by the server |
| HistoryEffects.DeleteIsExact | account_history.py:222-236 | A deleted record is gone, buried and queued for deletion, and nothing else is touched |
| HistoryEffects.ClearIsExact | account_history.py:238-249 | A clear leaves no record and no queued work, buries every record and stores the new clear ID |
| HistoryEffects.ReceiveIsExact | account_history.py:339-391 | A reply is accepted if and only if it is valid and contradicts nothing; then exactly the submitted work leaves the queues, the deletions are buried and the entries that count are there |
| HistoryEffects.FillIsMaximal | account_history.py:276-281 | The entries of a request are the longest run of pending ones that fits the byte limit |
| HistoryEffects.BatchIsExact | account_history.py:269-282 | A request carries the open clear alone, or the first fifty deletions and as many of the first fifty entries as fit, in order |
| HistoryEffects.ReceivedReadsAsSent | account_history.py:369-388 | A received entry becomes a record that shows its text and, sent again, would carry the same transcript and text |
| HistoryHonesty.RequestIsAcceptable | server/cloud/service/history.py:60-94 | What a consistent device sends passes the server's validation |
| HistoryHonesty.RefusalIsExact | server/cloud/service/history.py:97-182 | A request is invalid exactly if validation fails, contradicts exactly if a live row says something else, and is otherwise refused exactly for the storage bounds, which never hit a clear that was carried out before |
| HistoryHonesty.PageIsValid | account_history.py:284-308 | Every page of the server passes the device's validation |
| HistoryHonesty.AnswersAreAccepted | account_history.py:339-391 | In every run against the real server an answer that arrives is accepted unless it contradicts the device while no clear is open |
| SnippetText.CanonicalClusterEnd | dictionary_snippets.py:501-526 | The loop finds the end of the composition that starts at a position |
| SnippetText.ClustersDoNotOverlap | dictionary_snippets.py:501-526 | No cluster boundary lies inside another cluster |
| SnippetText.CanonicalText | dictionary_snippets.py:529-569 | The index maps built in the loop are exact: starts, ends and boundaries of every cluster in the canonical text |
| SnippetText.MapMatchAgrees | dictionary_snippets.py:529-569 | Comparing a key through the index maps is the same as matching it against whole clusters |
| SnippetText.MatchAdvances | dictionary_snippets.py:738-808 | A match consumes at least one cluster, and whole clusters only |
| SnippetText.Best | dictionary_snippets.py:450-455 | Among the accepted rules, the one taken has the longest folded trigger and, on equal lengths, the lowest list index; none is taken only if none is accepted |
| SnippetText.BestIsUnique | dictionary_snippets.py:450-455 | It does not depend on the order in which the rules are looked at |
| SnippetText.MatchEndIsExact | dictionary_snippets.py:529-569 | A key matches up to `end` exactly when whole clusters lead there and their canonical text is the key |
| SnippetText.MatchIsExact | dictionary_snippets.py:768-786 | A rule applies exactly when it is enabled and non-empty, its key is the canonical text of whole clusters, and no word character adjoins |
| SnippetTrie.Insert | dictionary_snippets.py:468-480 | Adding a rule grows the tree so that exactly the node of its key holds it |
| SnippetTrie.SortBelow | dictionary_snippets.py:481-485 | The walk over the tree puts every node's rules in sort order and moves none |
| SnippetTrie.BuildSnippetTrie | dictionary_snippets.py:463-485 | The tree has a node for every prefix of an enabled key of its mode, and each node holds exactly the rules whose key leads to it |
| SnippetTrie.PrefixClosed | dictionary_snippets.py:463-485 | Where the tree has no node, no longer key exists |
| SnippetExpansion.ExpandSpokenTrigger | dictionary_snippets.py:717-736 | A whole utterance is replaced by the best rule it utters, within the limit |
| SnippetExpansion.Collect | dictionary_snippets.py:767-792 | The walk down the tree from a cluster start collects exactly the rules that match there |
| SnippetExpansion.FindMatch | dictionary_snippets.py:766-797 | Over both modes, in any order, the first sorted match is the one the plain search finds |
| SnippetExpansion.Expand | dictionary_snippets.py:738-808 | Expansion by tries and index maps gives exactly what the plain left-to-right search gives, with the same refusals at the limit (what that search means is `ExpansionIsExact` and `LongestTriggerWins`) |
| SnippetExpansion.ExpansionTilesInput | dictionary_snippets.py:758-808 | The result is put together from pieces that tile the input: characters kept where nothing matches, whole-cluster spans replaced by the best match, never rescanned |
| SnippetExpansion.TilingIsUnique | dictionary_snippets.py:758-808 | There is only one such tiling, so the output is determined by what matches where |
| SnippetExpansion.LongestTriggerWins | dictionary_snippets.py:450-455 | Of all rules that match at a position, the one taken has the longest folded trigger and, among those, the lowest list index |
| SnippetExpansion.ExpansionIsExact | dictionary_snippets.py:717-808 | A text over the limit is refused; one that utters a trigger alone becomes the replacement of the highest ranked rule it utters; any other becomes its one faithful tiling put together; either way only if the limit allows |
| SnippetExpansion.SpokenIsExact | dictionary_snippets.py:54-63 | What is compared of an utterance is its characters in order without those to be ignored |
| OperationLedger.ComputerHost.OperationWindow | computer_host.py:1415-1450 | The barrier is raised, then exactly the expired claims without a running call are dropped with their results |
| OperationLedger.ComputerHost.DropExpired | computer_host.py:1430-1447 | The loop over the claims drops and counts exactly those |
| OperationLedger.ComputerHost.Admit | computer_host.py:1628-1710 | A request ends in one start, a stored result or the error of the first check that fails, in the order of the checks (when it starts is `OperationAnswers.StartIsExact`) |
| OperationLedger.ComputerHost.Cached | computer_host.py:1610-1626 | A known claim is answered by its state; a stored result moves to the end of the cache |
| OperationLedger.ComputerHost.Finish | computer_host.py:1839-1868 | The outcome is stored only for a live call; a cancelled or outlived one marks its claim cancelled |
| OperationLedger.ComputerHost.Remember | computer_host.py:1860-1867 | The eviction loop removes as many of the oldest results as make room |
| OperationLedger.ComputerHost.Release | computer_host.py:1869-1873 | The end of a call frees its slot and its entry in the table of running calls |
| OperationLedger.ComputerHost.Cancel | computer_host.py:1475-1510 | Cancelling marks or reserves the claim, cancels its call and drops its result |
| OperationLedger.ComputerHost.RevokeDevice | computer_host.py:1392-1413 | Revoking removes the device with its claims and results and cancels its calls, also while the host is stopped |
| OperationLedger.ComputerHost.StartHost | computer_host.py:718-829 | Opening the database makes running claims uncertain before anything is admitted |
| OperationLedger.ComputerHost.Stop | computer_host.py:885-907 | Stopping cancels all calls, claims and cached results |
| OperationLedger.ComputerHost.Publish | computer_host.py:1116-1135 | A success reply is sent only for a paired device and a succeeded claim |
| OperationRuns.EvictionMakesRoom | computer_host.py:1860-1865 | Eviction stops as soon as there is room or nothing is left |
| OperationRuns.StartIsFirst | computer_host.py:1460-1473 | What passes the time check and has no claim was never started before |
| OperationRuns.NextKeeps | computer_host.py:1392-1873 | Every step, and every crash between two commits, keeps the invariant of claims, calls, cache and history |
| OperationRuns.AtMostOnce | computer_host.py:1636-1710 | Over every run the processor starts at most once for a device and operation |
| OperationRuns.RepliesAgree | computer_host.py:1610-1626 | All success replies for an operation carry the one stored result and content hash |
| OperationRuns.CacheIsExact | computer_host.py:1858-1868 | The byte count equals the sum of the cached lengths, within both limits, and every cached key has a succeeded claim |
| OperationRuns.CancellationWins | computer_host.py:1116-1135 | After an acknowledged cancellation or a revocation no success reply for the operation is sent any more |
| OperationRuns.CancelledIsAbsorbing | computer_host.py:1475-1510 | A cancelled claim, also one made before its upload, stays until it expires or its device is revoked |
| OperationRuns.WorkersAreBounded | computer_host.py:1698-1710 | Calls under way and free slots always add up to the capacity |
| OperationRuns.ClaimsAreBounded | computer_host.py:1452-1458 | The database never holds more than the permitted number of claims, those reserved by cancellations included |
| OperationRuns.RetryIsAnswered | computer_host.py:1610-1626 | While a result is cached, a retry of the same content within the window gets it and may be answered |
| OperationAnswers.WindowIsExact | computer_host.py:1415-1450 | Opening the window drops exactly the claims that no longer survive, with their results, and the barrier never goes back |
| OperationAnswers.StartIsExact | computer_host.py:1636-1710 | The processor starts if and only if the host runs, the device is paired, the operation is inside the window, has no claim and no refusal, there is room for a claim and a slot is free; then its claim runs under this content in one slot |
| OperationAnswers.AnswersAreExact | computer_host.py:1610-1710 | What every other request is answered, in terms of the device, the time, the claim and the free slots |
| OperationAnswers.StoredIsExact | computer_host.py:1610-1626 | In every reachable state the stored result is the answer exactly while it is cached and the content is the same |
| OperationAnswers.HitGoesLast | computer_host.py:1622-1626 | A hit becomes the newest cached result and the others keep their order |
| OperationAnswers.EvictionIsMinimal | computer_host.py:1860-1865 | Eviction takes the oldest results first and stops as soon as there is room |
| OperationAnswers.OutcomeIsExact | computer_host.py:1834-1868 | An outcome is delivered exactly when it is a result of permitted size and neither a cancellation, a stop nor a restart came first; it is then cached and may be sent |
| OperationAnswers.CancelIsExact | computer_host.py:1475-1510 | A cancellation is acknowledged exactly for a timely or running operation that has a claim or room for one, and then touches nothing but that operation |
| OperationAnswers.RevokeIsExact | computer_host.py:1392-1413 | A revocation takes everything of the device and nothing of another |
| OperationAnswers.StartIsClean | computer_host.py:741-829 | After a start nothing runs, and what was running has an unknown outcome |
| OperationAnswers.StopIsClean | computer_host.py:885-907 | A stop cancels every call, cancels the running claims if it can save them, and keeps no result |
| OperationAnswers.OthersAreTurnedAway | computer_host.py:1437-1458 | Who is answered before any claim is looked at, and when a full table refuses: for good exactly if 4096 claims without a time fill it, else until claims expire |
| OperationAnswers.ReleaseIsExact | computer_host.py:1869-1873 | The end of a call gives back its own slot and its own entry, and nothing else |
| OperationAnswers.PairIsExact | computer_host.py:1636-1646 | A running host pairs the device and no other, and does not turn it away as unknown from then on |
| RefreshClaim.ChatGPTAuth.LoadProfile | chatgpt_auth.py:407-500 | A profile that differs from the one last seen invalidates what is under way |
| RefreshClaim.ChatGPTAuth.SaveProfile | chatgpt_auth.py:518-530 | A write gets a new revision, or leaves the store as it was |
| RefreshClaim.ChatGPTAuth.Claim | chatgpt_auth.py:973-995 | The claim is stored before anything is sent, and not for a record that is claimed, signed out or still good (in seconds: `RefreshAnswers.ClaimIsExact`) |
| RefreshClaim.ChatGPTAuth.Send | chatgpt_auth.py:996-1007 | The token is sent only while the session is current |
| RefreshClaim.ChatGPTAuth.Complete | chatgpt_auth.py:1015-1026 | An answer is stored only for a current session whose own claim stands |
| RefreshClaim.ChatGPTAuth.Terminate | chatgpt_auth.py:1027-1042 | A terminal error signs the account out under the same conditions |
| RefreshClaim.ChatGPTAuth.SignInStart | chatgpt_auth.py:785-802 | A new attempt replaces the one under way |
| RefreshClaim.ChatGPTAuth.SignInRegister | chatgpt_auth.py:876-882 | A registration is kept only for the attempt that stands |
| RefreshClaim.ChatGPTAuth.SignInFinish | chatgpt_auth.py:902-919 | The record is replaced, selected and unclaimed, and everything under way is invalidated |
| RefreshClaim.ChatGPTAuth.SignOut | chatgpt_auth.py:1056-1073 | Tokens and claim go, after the session was invalidated |
| RefreshClaim.ChatGPTAuth.SelectAccount | chatgpt_auth.py:938-945 | Selecting invalidates what is under way |
| RefreshClaim.ChatGPTAuth.AcknowledgePlanNotice | chatgpt_auth.py:947-956 | Acknowledging changes the notice alone |
| RefreshRuns.NextKeeps | chatgpt_auth.py:785-1072 | Every step of every session keeps the invariant between store, claims and sessions |
| RefreshRuns.PresentedAtMostOnce | chatgpt_auth.py:958-1054 | Over any number of sessions, processes, crashes and uncertain sends no refresh token is presented twice |
| RefreshRuns.SendPresentsItsClaim | chatgpt_auth.py:996-1007 | What is sent is the token of a claim that was never sent before |
| RefreshRuns.LateAnswerIsHarmless | chatgpt_auth.py:1015-1042 | A late answer changes nothing, or exactly the tokens its own claim left |
| RefreshRuns.RemovedClaimIsNeverHonoured | chatgpt_auth.py:1015-1017 | A claim that sign-in, sign-out or an answer removed never comes back, so its answer is dropped for good |
| RefreshRuns.CredentialIsCurrent | chatgpt_auth.py:958-1026 | A credential is for the account selected in the store and carries its access token |
| RefreshRuns.WritesAreNoticed | chatgpt_auth.py:495-526 | Every write is noticed by the next look of a session that saw the store before it, even if only the revision differs |
| RefreshAnswers.ClaimIsExact | chatgpt_auth.py:973-995 | A stored token is handed out, refreshed or refused by the plan scope, the claim, the seconds it is good for and its earliest refresh, and by nothing else; a claim is written exactly when the store can be |
| RefreshAnswers.CredentialIsUnexpired | chatgpt_auth.py:981-987 | No token that has expired is ever handed out |
| RefreshAnswers.SendIsExact | chatgpt_auth.py:996-1007 | The refresh token goes out exactly while the session is current |
| RefreshAnswers.CompleteIsExact | chatgpt_auth.py:1015-1026 | An answer takes effect exactly while the session is current, its own claim stands and the store can be written |
| RefreshAnswers.TerminateIsExact | chatgpt_auth.py:1027-1042 | An unusable token signs the account out under the same conditions, and this session stays out even if that cannot be written |
| RefreshAnswers.RefreshSucceeds | chatgpt_auth.py:958-1026 | An undisturbed refresh sends the stored token once, stores the answer and hands it out, and the next request needs no refresh |
| RefreshAnswers.SignInStartIsExact | chatgpt_auth.py:785-801 | A new attempt stands and the one before it is cancelled |
| RefreshAnswers.SignInRegisterIsExact | chatgpt_auth.py:876-882 | A registration is kept exactly for the attempt that stands |
| RefreshAnswers.SignInFinishIsExact | chatgpt_auth.py:902-919 | A sign-in takes effect exactly for the attempt that stands |
| RefreshAnswers.SignInThenReady | chatgpt_auth.py:902-987 | What was signed in with is what the next request is given |
| RefreshAnswers.SignOutIsExact | chatgpt_auth.py:1056-1073 | Tokens and claim of the selected account go, its token is returned for revocation, and the other accounts stay |
| RefreshAnswers.SignOutThenRefused | chatgpt_auth.py:958-1073 | After a sign-out no session of any process is given a credential until the next sign-in or selection |
| RefreshAnswers.SelectIsExact | chatgpt_auth.py:938-945 | Selecting a known account changes the selection alone and makes stale what was under way |
| RefreshAnswers.AcknowledgeIsExact | chatgpt_auth.py:947-956 | Acknowledging changes the notice alone and keeps the session current |
| HistorySnapshots.RecoverableIsSound | history_store.py:588-639 | What can be recovered is a structurally valid file of a supported version |
| HistorySnapshots.MigrationKeepsEveryEntry | history_store.py:588-709 | Every entry of a recoverable legacy file becomes a record |
| HistorySnapshots.CurrentFileIsExact | history_store.py:588-639 | A file of the current version can be recovered exactly if it has a list of records that are each complete, well typed and accepted by the record type |
| HistoryRecovery.NewestOnes | history_store.py:1013-1016 | The candidates that share the latest modification time |
| HistoryRecovery.HistoryFolder.ReadTemporaries | history_store.py:924-936 | Readable JSON objects are collected in order, other files removed best effort, an unreadable one stops it |
| HistoryRecovery.HistoryFolder.RemoveEach | history_store.py:1041-1046 | Best-effort removal of every name but the promoted one |
| HistoryRecovery.HistoryFolder.RecoverInterruptedWrite | history_store.py:907-1102 | Recovery changes the folder and answers as the decision over primary and snapshots says (what that loses and keeps is `OnlySupersededIsRemoved`) |
| HistoryRecovery.HistoryFolder.RecoverOver | history_store.py:978-1047 | With a JSON object as primary: kept with every snapshot if its version is later or unknown or its container is unsound and nothing newer can be recovered; else replaced by the one newest snapshot or kept, and the superseded ones removed |
| HistoryRecovery.HistoryFolder.RecoverMissing | history_store.py:959-1102 | Without a primary, or with a corrupt one |
| HistoryRecoverySafety.RecoveryIsSafe | history_store.py:907-1102 | Recovery returns the document left as primary, the old one or the one snapshot newer than it and all rivals; when it raises, the primary and every JSON object are still there |
| HistoryRecoverySafety.LaterVersionsAreKept | history_store.py:978-989 | A primary of a later or unknown version is never written over; a snapshot of one is never removed |
| HistoryRecoverySafety.NewestIsRecovered | history_store.py:1013-1047 | The one snapshot that may take the place of the primary, be it recoverable and newest or, with nothing else there, of a later version, is what recovery returns unless the file system fails |
| HistoryRecoverySafety.RecoveryIsIdempotent | history_store.py:907-1102 | Running recovery again returns the same document, whatever removals failed |
| HistoryRecoverySafety.OnlySupersededIsRemoved | history_store.py:978-1047 | A JSON-object snapshot is gone only if it became the primary, or the primary in place is structurally sound and the snapshot is no recoverable one newer than it; under an unsound primary every JSON object is still there |
| HistoryRecoverySafety.PrimaryIsReturned | history_store.py:978-1047 | Without a newer recoverable snapshot a JSON-object primary is returned and stays as it is |
| HistoryRecoverySafety.LeftoversAreRemoved | history_store.py:1041-1102 | Once the primary in place is sound, no snapshot of a supported version stays that could be removed |
| HistoryRecoverySafety.LegacyFileIsExact | history_store.py:588-709 | A legacy file can be recovered exactly if it has one list of records and each of them is an object with textual provider and model whose known fields are accepted as a record |
| HistoryRecoverySafety.SuccessIsExact | history_store.py:959-1102 | Unless the file system fails, recovery succeeds if and only if some snapshot may be promoted or everything may stay as it is: no file at all, or a JSON-object primary of a later version or no older than all that could be recovered |
| PauseStream.ChunksDoNotMatter | local_asr_streaming.py:110-160 | However the recording arrives, the cuts in the end are those of one scan |
| PauseStream.ScanIsSafe | local_asr_streaming.py:135-144 | Every cut lies on a frame with half a second of quiet frames on each side |
| PauseStream.PauseStream.Take | local_asr_streaming.py:127-132 | A chunk extends what was read and loses nothing |
| PauseStream.PauseStream.LookAtFrame | local_asr_streaming.py:135-143 | One frame more, and a cut where the pause is long enough |
| PauseStream.PauseStream.Commit | local_asr_streaming.py:143-159 | The recording so far is decoded as one prefix; the committed bytes, digest and text stay in step |
| PauseStream.PauseStream.ScanPending | local_asr_streaming.py:135-161 | The inner loop ends where the scan of the whole recording so far stands |
| PauseStream.PauseStream.Run | local_asr_streaming.py:110-165 | Whatever polls find, committed bytes are a prefix of what was read and the text is their decoding; what was read is the polled file from its first sample on, and where nothing stops the loop all of the last poll was read and the scan stands where one scan of it does |
| PauseStream.PauseStream.Finish | local_asr_streaming.py:167-211 | Text is delivered exactly when nothing failed, the final recording starts with the committed bytes and the rest is as good as silent; it is the decoding of exactly those bytes |
| PauseStream.CutsAreFirstPauses | local_asr_streaming.py:135-159 | Each cut lies in the first pause since the cut before it: no pause is missed and none is invented |
| PauseStream.SilenceIsExact | local_asr_streaming.py:56-62 | A frame of one level is quiet exactly below 100, and a tail of one level may be skipped exactly below 25 |
| PauseStream.SpikeIsKept | local_asr_streaming.py:53-62 | One sample above 100, however short, keeps a tail from being skipped |
| PauseStream.SampleIsExact | local_asr_streaming.py:136-138 | A sample is the one signed 16-bit value that its two bytes stand for, the low byte first |
| AudioBatch.ProcessOne | audio_file_batch.py:778-870 | At most max_attempts calls; each but the last failed with a retryable error and a delay and without a cancellation, and none follows any other outcome; a failure is final only at the last attempt or for an error that is not retryable or has no delay; a success is the last answer |
| AudioBatch.AudioBatchJob.Cancel | audio_file_batch.py:601-629 | Cancelling ends every waiting file and cancels every file under way |
| AudioBatch.AudioBatchJob.Publish | audio_file_batch.py:645-669 | A success that arrives after a cancellation is published as cancelled |
| AudioBatch.AudioBatchJob.ClaimProcessing | audio_file_batch.py:745-764 | Only a waiting file of a batch that is not cancelled is claimed |
| AudioBatch.AudioBatchJob.FailureResult | audio_file_batch.py:766-776 | An exception of a worker is a failure, or a cancellation where one is under way |
| AudioBatchRuns.NextKeeps | audio_file_batch.py:601-764 | Every step of submitter, workers and cancellations keeps the invariant |
| AudioBatchRuns.ProcessingIsBounded | audio_file_batch.py:699-715 | Never more files under way than workers |
| AudioBatchRuns.EndedStays | audio_file_batch.py:645-669 | A file that has ended stays as it is, even where the final sweep and a cancellation write at once |
| AudioBatchRuns.CancellationWins | audio_file_batch.py:601-669 | From the moment a cancellation has the lock, no file becomes a success |
| AudioBatchRuns.CallsAreBounded | audio_file_batch.py:778-870 | No file costs more than max_attempts provider calls |
| AudioBatchRuns.DoneIsComplete | audio_file_batch.py:726-744 | When the batch is done its result lists every file in input order with a final outcome |
| AudioBatchRuns.CancellationIsAtomic | audio_file_batch.py:601-629 | The marks a cancellation makes one by one add up to one operation on the whole table |
| AudioBatchRuns.CancellationReachesAll | audio_file_batch.py:601-629 | A cancellation ends everything that waits, cancels every token and changes nothing that is under way or has ended |
| AudioBatchWork.WorkIsShown | audio_file_batch.py:681-743 | When a batch is done every file shows exactly what its own worker made of it; only in a batch that was cancelled may it show the cancellation instead, never over a worker's own failure and with nothing of a result |
| AudioBatchEnds.StepsAreBounded | audio_file_batch.py:695-743 | Whatever workers and cancellations do in between, the submitting thread takes at most a fixed number of steps a file, so it comes to an end |
| AudioBatchEnds.NeverStuck | audio_file_batch.py:695-743 | Until it is done and while no cancellation holds the lock the thread can go on, unless it waits; then files are under way, and it can as soon as one worker is done |
| RelayProtocol.TokensAreExact | computer_relay_protocol.py:48-60 | Tokens and 32-byte values correspond one to one; a text that does not decode to itself is refused |
| RelayProtocol.OctetsOfSextets | computer_relay_protocol.py:48-60 | Base64url without padding is read back as it was |
| RelayProtocol.ChallengeIsInjective | computer_relay_protocol.py:90-110 | No two requests have the same challenge: it binds purpose, host, nonce and pending ID |
| RelayProtocol.GroupsAreBigEndian | computer_relay_protocol.py:48-60 | Three bytes become the four base-64 digits of the same number, the highest first, and what is left over is filled up with zero bits |
| RelayProtocol.LetterIsExact | computer_relay_protocol.py:48-60 | The letters are the URL-safe alphabet in its order |
| RelayProtocol.ChallengeIsExact | computer_relay_protocol.py:90-110 | There is a challenge exactly for a DNS name, a 32-byte nonce and either a registration or an attach with a 32-byte ID, and it ends in the nonce and that ID |
| Relay.ComputerRelayServer.Register | computer_relay_server.py:533-545 | A registration needs a proof and a free place, and replaces the one of the same host |
| Relay.ComputerRelayServer.DropOwner | computer_relay_server.py:547-552 | Closing takes the owner out only if it is still the current one, and cancels its phones |
| Relay.ComputerRelayServer.Attach | computer_relay_server.py:570-586 | An attach uses up its pending ID once, and only for the current owner and a valid proof |
| Relay.ComputerRelayServer.Deliver | computer_relay_server.py:498-501 | The waiting phone gets the channel unless it gave up |
| Relay.ComputerRelayServer.OpenPhone | computer_relay_server.py:597-614 | A phone is admitted within the three limits and counted |
| Relay.ComputerRelayServer.ResumePhone | computer_relay_server.py:621-625 | The tunnel starts only while the owner that was asked is current |
| Relay.ComputerRelayServer.EndPhone | computer_relay_server.py:627-637 | However the phone ends, its ID, future and counts are given back |
| RelayRuns.NextKeeps | computer_relay_server.py:471-637 | Every interleaved step keeps the invariant of owners, requests, phones and counts |
| RelayRuns.VerifiedIsSigned | computer_relay_server.py:580-584 | A verified attach was signed as an attach for this relay, nonce and pending ID |
| RelayRuns.PendingIsUsedOnce | computer_relay_server.py:570-637 | A pending ID gives at most one tunnel |
| RelayRuns.TunnelIsProven | computer_relay_server.py:570-625 | A tunnel starts only while the issuing owner is current, over the channel of an attach the owner's key signed for exactly this ID |
| RelayRuns.CountsAreExact | computer_relay_server.py:588-637 | Stream, tunnel and pending counts are those of the live phone tasks and stay within limits |
| RelayRuns.SuccessorStays | computer_relay_server.py:538-552 | Closing a replaced owner never removes its successor |
| RelayAnswers.RegisterIsExact | computer_relay_server.py:533-545 | A host is registered exactly if its proof verified and it is known or there is room, as a new owner without phones |
| RelayAnswers.DropIsExact | computer_relay_server.py:547-552 | Closing an owner takes it off the register if it is current, and cancels all of its phones and no other, with what they wait for |
| RelayAnswers.OpenIsExact | computer_relay_server.py:597-614 | A phone is let in exactly if its host is registered and its live phones, the outstanding requests and all live phones are below their limits |
| RelayAnswers.VerifiesIsExact | computer_relay_server.py:580-584 | Verification accepts exactly what the key's holder signed for this relay, nonce and pending ID |
| RelayAnswers.AttachIsExact | computer_relay_server.py:570-586 | An attach is accepted if and only if its phone waits for a current owner and that owner's key signed it; it then uses up the ID and changes nothing else |
| RelayAnswers.SignedAttachOpensTunnel | computer_relay_server.py:497-626 | A host that signs the attach of a listening phone gets its tunnel: attach, delivery and resumption all succeed |
| RelayAnswers.DeliverIsExact | computer_relay_server.py:498-501 | The channel reaches the phone exactly while it still waits |
| RelayAnswers.EndIsExact | computer_relay_server.py:627-637 | An ending phone gives back exactly what it took, and a request that still waits is dropped |
| RelayAnswers.AdmittedPhoneListens | computer_relay_server.py:601-621 | A phone that was let in listens from the moment its request was written |

## Left out

- TLS, certificates, HTTP, sockets, SQLite and the operating system's locks: atomic steps and the assumptions above take their place.
- JSON parsing, the regular expressions of the redaction and the record validators: the redaction model starts at a name that was found, and recovery takes the record validator as a parameter.
- Validation inside the readers of stored profiles and documents (`chatgpt_auth.py` 414-494): what is stored satisfies it in every run of the model.
- Account identity and throttling in `account_history.py`: the signed-in owner is one flag of the caller, and a synchronization may be attempted at any time.
- The order of tombstones in the account document: they are a set in the model.
- Requests that reach the history server after the device has moved on to a later one.
- File signatures in `chatgpt_auth.py` (502-516): the model reads the store at every look, as the code does when the signature changed.
- Admission by address, handshake limits and the preface scanner of `computer_relay_server.py`.
- Failures of the clock or of `stat` on a directory during recovery; a file whose own time is unknown is modelled.
- WAV headers in `local_asr_streaming.py`: the position of the samples is part of what a poll finds.
- A thread that cannot be started in `audio_file_batch.py`: the batch would end with files still under way.
- Preparation of dictations and text actions in `computer_host.py`: its outcome is a parameter of the request.
- Three-way merge in `clarify_account.py`, the recording controller in `hotkey_config.py`, settings, user interface, provider adapters, installers and updaters.
- HistorySync.Convergence: says nothing of a run in which the server's rows still lie beyond the cursor; `HistoryDevice.RoundsSettle` shows that answered rounds end the device's own work.
- PauseStream.PauseStream.Finish: the half seconds of silence around a cut are stated of the recording as it was read while it grew; of the final recording only the committed bytes are compared, as the code does.
- EgressBudget.EgressBudget.Consume: a clean shutdown is not distinguished from a crash, because neither gives a lease back.
- OperationLedger.ComputerHost.Admit: the shape of the result a processor returns is not modelled; a malformed one is a failed outcome.
