# Verified model of the CPF FCV reviewer

This project models the deterministic shell of the CPF FCV reviewer, the code around its language-model, search
and document-parsing calls, and proves what that shell guarantees whatever those calls return. Foreign calls are
arbitrary values, exceptions or functions. `dafny verify dfyconfig.toml` checks everything.

The modules, by component:

- **Session stores.** `Values` is the tagged encoding of payload values and `Lineage` the lineage search of
  `delete`. `Sessions` specifies the store calls, `VolatileStore` is the in-memory store, `Tables` the three SQLite
  tables with their cascade, `SqliteStore` the persistent store over them, and `StoreRefinement` proves that the
  two stores answer alike.
- **Runs.** `RunProtocol` is the service around one store as interleaved atomic steps: request handlers, any
  number of workers, crash, restart, expiry, and store calls that fail. `RunSafety` proves its invariant,
  `RunPaths` builds runs that complete, fail, are retried and are interrupted, and `RunRace` the run in which a
  retry without the browser's guard breaks the invariant.
  `Orchestrator` is the step machine of one review.
- **Assistant.** `StreamText` and `AssistantStream` are the event stream: printing, the network and the browser's
  incremental parser. `AssistantReply` follows one reply from the gateway to the page, wherever the stream ends.
  `AssistantHistory` is the protocol around the stored conversation.
- **Repair.** `Assessments` holds the rows and their contracts and `ReviewValidator` the checks on them. The
  repair of a review by an arbitrary model draft is in `RepairMerge`, `RepairStrategy`, `RepairText`,
  `RepairSurvival` and `RepairPriorities`, and `Repair` composes them.
- **Research.** `ClaimSelection` grades, selects and merges claims. `ResearchRun` says what a search run may do
  next and how it ends, `ResearchController` is the search and recovery loop that keeps to it, and
  `ResearchSafety` proves what holds of every run that does.
- **Selection and splitting.** `DigestPlan`, `PageSampling`, `ChunkText`, `CountryMatch` and `WarningLedger`.

Where a property the program is meant to have does not hold on all inputs, the model keeps the program's
behaviour, shows an input that fails, and proves when the property holds:

- Two rows for one strategic shift can leave an unsupported strategy row after a repair. `Repair.RepairIsSoundIff`
  gives the exact condition and `Repair.ConfusableCanFail` the draft.
- The retry endpoint checks only the stored status. Between marking a failure and reporting it, a retry would put
  the old run's `run_failed` into the new run's log (`RunRace.UnguardedResetRace`). The browser retries only
  after it has seen `run_failed`, and the protocol's retry step carries that guard; `RunSafety.UnguardedReset`
  says when the endpoint alone is safe.
- The stores answer alike exactly as long as the clock does not go back (`StoreRefinement.ClockMustNotGoBack`).
- A payload dictionary that is exactly the bytes marker does not survive the persistent store
  (`Values.RoundTrip`), so the persistent store's calls take payloads without one.
- Updating the status to none, or removing its key, parts the status column from the payload of a live session,
  except where the key goes from a session still at created (`Sessions.MirrorIff`); the program does neither.
- An assistant request whose clearing update fails, or whose client goes before the reply begins, leaves its review
  refusing requests until the process restarts. `AssistantHistory.StuckIff` says that nothing else does, and
  `AssistantHistory.StuckIsReached` gives a run.
- A reply can be stored and not shown: `AssistantReply.ShownIsStored` says when. The clearing update comes after the
  closing event, so its failure breaks off a stream that has already said done.

Conventions: times are integers, or reals where only comparisons and differences matter; dates are day numbers;
reply texts are sequences of UTF-16 units; normalised text is a sequence of words. A store call either commits or
raises with no effect, as its transaction guarantees.

## Model

| member | source | states |
|---|---|---|
| `Values.RoundTrip` | src/cpf_fcv_reviewer/persistent_store.py:19-44 | Decoding an encoded session value gives it back exactly when no dictionary inside it, at any depth, has the bytes marker as its only key over a text. |
| `Lineage.FindLineage` | src/cpf_fcv_reviewer/session_store.py:135-154 | The delete loop ends and returns exactly the connected component of the given id under the stored parent relation, defined independently by walks. |
| `Lineage.ClosedIsComponent` | src/cpf_fcv_reviewer/persistent_store.py:300-314 | Any set of linked ids that contains the root and is closed under one step of the loop is the whole component. |
| `Lineage.SurvivorsHaveNoDeletedKin` | src/cpf_fcv_reviewer/persistent_store.py:283-320 | No session that survives a delete has a deleted parent or a deleted child. |
| `Lineage.ComponentOfMember` | src/cpf_fcv_reviewer/session_store.py:135-156 | Deleting from any member of a lineage deletes the same sessions. |
| `VolatileStore.Volatile.constructor` | src/cpf_fcv_reviewer/session_store.py:26-37 | A new store is empty and keeps the given lifetime. |
| `VolatileStore.Volatile.PurgeExpired` | src/cpf_fcv_reviewer/session_store.py:39-46 | Purging leaves exactly the sessions whose expiry is later than the clock. |
| `VolatileStore.Volatile.Create` | src/cpf_fcv_reviewer/session_store.py:55-65 | Creation purges, stores the payload with a fresh expiry and an empty log, and leaves the rest alone. |
| `VolatileStore.Volatile.Get` | src/cpf_fcv_reviewer/session_store.py:67-70 | Reading answers the live session or that it expired, and changes nothing but the purge. |
| `VolatileStore.Volatile.Update` | src/cpf_fcv_reviewer/session_store.py:72-77 | An update merges the values into a live session and renews its expiry. |
| `VolatileStore.Volatile.RemoveKeys` | src/cpf_fcv_reviewer/session_store.py:79-85 | Removal takes exactly the named keys from a live session and renews its expiry. |
| `VolatileStore.Volatile.Emit` | src/cpf_fcv_reviewer/session_store.py:87-90 | An event goes to the end of a live session's log, whose expiry stays. |
| `VolatileStore.Volatile.ReadEvents` | src/cpf_fcv_reviewer/session_store.py:97-104 | Events after a number come with their numbers, counted from one. |
| `VolatileStore.Volatile.ResetFailedResearch` | src/cpf_fcv_reviewer/session_store.py:106-133 | Exactly a live failed session with a retryable code is reset, and no other session: the failure code, the result, the evidence, the validation issues and every research key are gone, every other key keeps its value, the status is created, and the log is one run_started event. |
| `VolatileStore.Volatile.Delete` | src/cpf_fcv_reviewer/session_store.py:135-156 | The live sessions lose exactly the component of the id. |
| `VolatileStore.Volatile.Count` | src/cpf_fcv_reviewer/session_store.py:158-161 | The number of live sessions. |
| `VolatileStore.Volatile.Perform` | src/cpf_fcv_reviewer/session_store.py:55-161 | Each call changes and answers the store as the specification step does. |
| `Tables.ViewUnique` | src/cpf_fcv_reviewer/persistent_store.py:68-93 | Tables that satisfy the foreign keys represent at most one state of sessions, payloads and contiguous logs. |
| `Tables.DeleteSessionsEffect` | src/cpf_fcv_reviewer/persistent_store.py:78-89 | Deleting session rows cascades to values and events: what is left represents the remaining sessions, unchanged. |
| `Tables.PutEventEffect` | src/cpf_fcv_reviewer/persistent_store.py:195-210 | Inserting at one more than the largest sequence extends that session's log by one event and touches no other. |
| `Tables.PutValuesEffect` | src/cpf_fcv_reviewer/persistent_store.py:160-166 | Upserting encoded values represents the payload merged with the values. |
| `Tables.DropValuesEffect` | src/cpf_fcv_reviewer/persistent_store.py:186-189 | Deleting named values represents the payload without those keys. |
| `SqliteStore.NextSequence` | src/cpf_fcv_reviewer/persistent_store.py:199-202 | One more than the largest sequence is one more than the length of the log, because numbers are contiguous from one. |
| `SqliteStore.Sqlite.Create` | src/cpf_fcv_reviewer/persistent_store.py:112-129 | The tables represent the specified state after creation, status column included. |
| `SqliteStore.Sqlite.Get` | src/cpf_fcv_reviewer/persistent_store.py:131-154 | The answer is decoded from the tables and equals the represented session; a call that raises leaves the tables as they were. |
| `SqliteStore.Sqlite.Update` | src/cpf_fcv_reviewer/persistent_store.py:156-180 | The tables represent the merged payload, the renewed expiry and the new status column; an expired id rolls everything back, the purge too. |
| `SqliteStore.Sqlite.RemoveKeys` | src/cpf_fcv_reviewer/persistent_store.py:182-193 | The tables represent the payload without the keys, with the status column as it was. |
| `SqliteStore.Sqlite.Emit` | src/cpf_fcv_reviewer/persistent_store.py:195-210 | The tables represent the log with the event at the end. |
| `SqliteStore.Sqlite.ReadEvents` | src/cpf_fcv_reviewer/persistent_store.py:212-225 | The numbered events after the given number, in order, are those of the represented log. |
| `SqliteStore.Sqlite.ResetFailedResearch` | src/cpf_fcv_reviewer/persistent_store.py:236-281 | Exactly a live failed session with a retryable code is reset: nothing of the failed attempt is left, its failure code included, every other key keeps its value, the status is created in column and payload, and the log is one run_started event. |
| `SqliteStore.Sqlite.Delete` | src/cpf_fcv_reviewer/persistent_store.py:283-320 | The tables represent the state without the connected component of the id. |
| `SqliteStore.Sqlite.Count` | src/cpf_fcv_reviewer/persistent_store.py:322-326 | The number of represented live sessions. |
| `SqliteStore.Sqlite.ClaimNext` | src/cpf_fcv_reviewer/persistent_store.py:348-370 | Claims the live queued session that comes first by (updated_at, session_id), marks column and payload as running, and answers none exactly when nothing is queued. |
| `SqliteStore.Sqlite.RequeueStale` | src/cpf_fcv_reviewer/persistent_store.py:328-346 | Every running session not updated since the cutoff, and no other, is queued again, column and payload alike. |
| `SqliteStore.Sqlite.Perform` | src/cpf_fcv_reviewer/persistent_store.py:99-326 | Each call changes the represented state and answers as the specification step does. |
| `StoreRefinement.StepsAgree` | src/cpf_fcv_reviewer/persistent_store.py:99-326 | Stores that agree on the live sessions give the same answer to any call at any time and still agree afterwards, although the persistent one rolls back a purge when it raises. |
| `StoreRefinement.SqliteRefinesVolatile` | src/cpf_fcv_reviewer/persistent_store.py:47-326 | Under a clock that never goes back, every sequence of calls gets the same answers from both stores. |
| `StoreRefinement.DriveBoth` | src/cpf_fcv_reviewer/session_store.py:24-161 | The two store objects, driven through the same calls, return equal answers and end agreeing on the live sessions. |
| `StoreRefinement.ClockMustNotGoBack` | src/cpf_fcv_reviewer/persistent_store.py:99-110 | For any list of call times, the stores answer every choice of calls alike, from every state they share, exactly when the times never go back; otherwise a purge that was rolled back becomes visible again. |
| `StoreRefinement.PollingMissesNothing` | src/cpf_fcv_reviewer/routes.py:347-368 | A reader that polls while the log grows, each time after the last number it saw, gets every event it had not seen once, in order, with its number. |
| `Sessions.MirrorKept` | src/cpf_fcv_reviewer/persistent_store.py:112-129 | Every call that neither updates the status to none nor removes its key keeps the status column equal to the payload's status. |
| `Sessions.MirrorIff` | src/cpf_fcv_reviewer/persistent_store.py:156-193 | A call keeps the column equal to the payload's status exactly when it neither updates the status to none nor removes its key, or finds no live session, or removes the key of a session still at created. |
| `Sessions.MirrorKeptByQueue` | src/cpf_fcv_reviewer/persistent_store.py:328-370 | Claiming and requeueing keep the column equal to the payload's status. |
| `Sessions.FirstQueuedUnique` | src/cpf_fcv_reviewer/persistent_store.py:353-358 | At most one queued session is first, so a claim is determined by the tables. |
| `Sessions.FirstQueuedExists` | src/cpf_fcv_reviewer/persistent_store.py:353-360 | Whenever something is queued there is a first session to claim. |
| `Sessions.StepIs` | src/cpf_fcv_reviewer/session_store.py:55-161 | What each call leaves in the store and answers, session by session and key by key: what it writes, what it takes away, which expiry it renews, which numbered events it returns, and that all other live sessions stay as they were. |
| `Sessions.ResetStartsAfresh` | src/cpf_fcv_reviewer/session_store.py:106-133 | A reset happens exactly for a failed session whose code may be retried, and leaves what a fresh attempt starts from: none of the failed attempt's keys, all others with their values, status created, one run_started event. |
| `Sessions.GraphIs` | src/cpf_fcv_reviewer/session_store.py:135-146 | A session is linked exactly to the parent that its payload names. |
| `RunSafety.NextSafe` | src/cpf_fcv_reviewer/routes.py:559-643 | Every step of handlers, workers, crash and restart, with any store call allowed to fail, keeps the invariant. |
| `RunSafety.ReachableSafe` | src/cpf_fcv_reviewer/background.py:92-139 | The invariant holds in every state of every interleaving from an empty store. |
| `RunSafety.RunOutcomes` | src/cpf_fcv_reviewer/routes.py:587-641 | At any moment of any run: the status column mirrors the payload, a log holds at most one terminal event, `run_complete` means a complete session with a result, `run_failed` a failed one without result, evidence or research keys; each entry into the queue is claimed, and each failure retried, at most once; and no session has two workers. |
| `RunSafety.QueuedNotLost` | src/cpf_fcv_reviewer/background.py:57-60 | A queued session stays queued until it is claimed and running, has expired, or is deleted with its lineage. |
| `RunSafety.RestartRequeuesAll` | src/cpf_fcv_reviewer/background.py:53-55 | After a restart every session that was running is queued, once more than before, and no other status changes. |
| `RunSafety.ClaimTakesFirst` | src/cpf_fcv_reviewer/persistent_store.py:348-358 | While a live session is queued a claim succeeds and takes the first by (updated_at, session_id). |
| `RunSafety.UnguardedReset` | src/cpf_fcv_reviewer/routes.py:229-240 | The retry endpoint alone, which checks only the stored status, keeps the invariant exactly when no worker still has a call to make for the session. |
| `RunRace.UnguardedResetRace` | src/cpf_fcv_reviewer/routes.py:632-641 | For every lifetime, session and retryable code there is a run from an empty store, up to the moment between marking the failure and reporting it, after which the endpoint accepts a retry and the old attempt's `run_failed` lands in the new attempt's log. |
| `RunSafety.RecoveryIsTriedTwice` | src/cpf_fcv_reviewer/background.py:92-139 | A run that raises is recovered once under its own code and, when that raises too, once more as a failed review; then the worker lets go. |
| `RunPaths.CompletedRun` | src/cpf_fcv_reviewer/routes.py:559-615 | For every lifetime, progress, result and evidence there is a run from an empty store that completes: the store then holds exactly that result and evidence, and the log the progress and one run_complete. |
| `RunPaths.FailedRun` | src/cpf_fcv_reviewer/routes.py:615-643 | A run whose last event cannot be stored fails after all: result and evidence are gone, the failure code is stored and run_failed closes the log. |
| `RunPaths.RetriedRun` | src/cpf_fcv_reviewer/routes.py:229-240 | Such a failure, when its code may be retried, is retried: the session starts afresh and enters the queue a second time. |
| `RunPaths.InterruptedRun` | src/cpf_fcv_reviewer/background.py:53-60 | A run that a crash interrupts is queued again by the restart and can be claimed again. |
| `Orchestrator.Run` | src/cpf_fcv_reviewer/orchestrator.py:64-136 | For every list of steps and every behaviour of steps and repair: the events are, step by step, the step's start, its notices and, unless it failed, its end, and then one terminal event. A validation tells its advice, the one repair of what is fatal and that the repair was given up, each with the number and codes of the issues it is about. The run completes exactly when no step raises, at most one validation is troubled and the repair clears it, and then only advice is left; otherwise it ends at the first step that raises or whose trouble is not cleared, with the code that step calls for. At most one repair, with at most two model repairs. |
| `Orchestrator.Repair` | src/cpf_fcv_reviewer/runtime.py:1604-1638 | The second model repair happens exactly when the first leaves only mechanical fatal issues, and its outcome is then the repair's. |
| `Orchestrator.RepairIs` | src/cpf_fcv_reviewer/runtime.py:1631-1638 | A second model repair is asked for exactly when the first returned and left something fatal that is all of the four mechanical codes; the repair clears the trouble exactly when the last one asked for returned and left advice at most. |
| `Orchestrator.SplitFits` | src/cpf_fcv_reviewer/orchestrator.py:73-92 | Fatal and advisory issues together are all the issues, each as often as reported and each in its own half. |
| `Orchestrator.CompletedIsClean` | src/cpf_fcv_reviewer/orchestrator.py:100-128 | Where the run succeeds, every validation but one left advice at most, and that one only if the last model repair left advice at most. |
| `Orchestrator.CodesOf` | src/cpf_fcv_reviewer/orchestrator.py:79-87 | The reported codes are exactly the issues' text codes, each once. |
| `StreamText.JsonRoundTrip` | src/cpf_fcv_reviewer/routes.py:190 | Parsing the printed JSON of an event gives its data back, for every reply text, with every control, quote and non-ASCII unit escaped. |
| `AssistantStream.SplitInSteps` | src/cpf_fcv_reviewer/static/app.js:1193-1195 | Splitting text that arrives in two parts, keeping the unfinished block, equals splitting the whole, even when a block break straddles the cut. |
| `AssistantStream.DispatchBlock` | src/cpf_fcv_reviewer/static/app.js:1170-1183 | One block dispatches at most one event: its last event line names it, its data lines joined are its data, and text that does not parse becomes a parse error. |
| `AssistantStream.Consume` | src/cpf_fcv_reviewer/static/app.js:1185-1200 | However the text is cut in transit, the browser dispatches what parsing the whole text at once would. |
| `AssistantStream.ParsingUndoesPrinting` | src/cpf_fcv_reviewer/routes.py:190-215 | The browser reads back exactly the printed events, in order, for every list of events. |
| `AssistantStream.PrintedIsAscii` | src/cpf_fcv_reviewer/routes.py:190-215 | Printed events are ASCII, so cutting their bytes is cutting their text. |
| `AssistantStream.LineBreaksAlike` | src/cpf_fcv_reviewer/static/app.js:1170-1199 | Text whose line feeds all come after carriage returns dispatches what it does without the carriage returns. |
| `AssistantStream.TrimFits` | src/cpf_fcv_reviewer/static/app.js:1173 | Trimming an event's name takes white space from both ends, all of it, and nothing else. |
| `AssistantStream.JoinedLines` | src/cpf_fcv_reviewer/static/app.js:1174-1178 | Data spread over several lines is joined by line feeds. |
| `StreamText.ParsedIsWhole` | src/cpf_fcv_reviewer/static/app.js:1178-1182 | Only whole objects of the three printed kinds are read as data. |
| `AssistantReply.Generate` | src/cpf_fcv_reviewer/routes.py:178-220 | What the generator prints and stores is what `PassedOn` describes, printed before the flag is cleared; the stream ends cleanly unless the update that clears the flag is refused. |
| `AssistantReply.PassedOn` | src/cpf_fcv_reviewer/routes.py:178-215 | Every nonempty text before the first exception is printed as its own chunk, in order and once, and nothing else before one closing event: done exactly when the stream was whole, said something and was accepted, and else the error that fits. Those texts, one after the other, are the content stored, and only then. |
| `AssistantReply.JoinedInOrder` | src/cpf_fcv_reviewer/routes.py:192 | Joining texts is writing one after the other. |
| `AssistantReply.Receive` | src/cpf_fcv_reviewer/static/app.js:1185-1252 | What the page keeps is the text of the chunks if the body ended cleanly with done, nothing failed and the text is nonempty, and nothing otherwise, in particular when the body breaks off. |
| `AssistantReply.KeptIs` | src/cpf_fcv_reviewer/static/app.js:1229-1252 | Of any dispatched events the page keeps a reply exactly when the stream ended well, none was an error or unreadable, one was done and some chunk added text; what it keeps is all the text the chunks added, in order. |
| `AssistantReply.ShownIsStored` | src/cpf_fcv_reviewer/static/app.js:1229-1252 | Whatever the gateway says, whatever the store does, however the network cuts the bytes and wherever the stream ends, the reply left on the page is the content stored or there is none; when the store holds one, the page shows none exactly when the body broke off or lacks more than its last two line feeds. |
| `AssistantReply.CutEvent` | src/cpf_fcv_reviewer/static/app.js:1198-1199 | A printed event of which something is missing dispatches nothing, an error or its own name; it is read in full when at most the last two line feeds are missing, and a done event is not read when more is. |
| `AssistantHistory.ExchangesAreSerial` | src/cpf_fcv_reviewer/routes.py:154-226 | In every run: one exchange in flight at most; the stored history is the last twenty messages of the exchanges saved so far, in saving order and each once; it alternates from user to assistant, and no reply is empty. |
| `AssistantHistory.EverySaveCounts` | src/cpf_fcv_reviewer/routes.py:194-199 | At any moment of any run the stored history is the last twenty messages of exactly the questions and replies the run saved, in order: no update is lost. |
| `AssistantHistory.HistoryIs` | src/cpf_fcv_reviewer/routes.py:194-199 | The stored history, message by message: the questions of the last ten saves as the user's and their replies as the assistant's, in saving order. |
| `AssistantHistory.OneDecision` | src/cpf_fcv_reviewer/routes.py:154-171 | A request under the lock is admitted exactly when the review is live and no request of this process is in progress, and else refused. |
| `AssistantHistory.ExpiredIsFrozen` | src/cpf_fcv_reviewer/routes.py:206-226 | Once the review has expired no step changes its history, its flag or the owner. |
| `AssistantHistory.LeftBehind` | src/cpf_fcv_reviewer/routes.py:216-226 | A step leaves the in-progress flag set with nobody to clear it exactly when it is a clearing update that fails or a client gone before the reply begins, or found it so and is no restart. |
| `AssistantHistory.StuckIff` | src/cpf_fcv_reviewer/routes.py:216-226 | In a run, the flag is so stranded exactly when one of those two steps was taken since the last restart. |
| `AssistantHistory.StuckIsReached` | src/cpf_fcv_reviewer/routes.py:216-220 | It happens: from any review just completed a run strands the flag by a failing clearing update. |
| `AssistantHistory.StuckStays` | src/cpf_fcv_reviewer/routes.py:162-166 | A stranded flag refuses every later request and changes no history, until the process restarts. |
| `AssistantHistory.RestartFrees` | src/cpf_fcv_reviewer/routes.py:52 | After a restart a live review's next request is admitted, however the flag stood. |
| `ReviewValidator.Validate` | src/cpf_fcv_reviewer/validators.py:493-609 | Each of five codes is reported exactly when its fault is present: a shift that no row or more than one is about, or a row that assesses something without its shift's registry entry; a row citing unknown evidence; a missing driver assessment; an absence claim under incomplete coverage; a summary that does not name the priorities' areas in their order, each once. |
| `ReviewValidator.LinkageFaults` | src/cpf_fcv_reviewer/validators.py:571-609 | The validator's four linkage checks together fail exactly when summary and priorities do not list the same distinct areas in the same order. |
| `ReviewValidator.DistinctCounts` | src/cpf_fcv_reviewer/validators.py:571-586 | No name is counted more than once exactly when the names differ. |
| `ReviewValidator.PartsAre` | src/cpf_fcv_reviewer/validators.py:282-310 | The validated texts are exactly those a reader sees: of the review itself, its summary, its driver and strategy rows, its priorities with their comments, and its limitations. |
| `RepairMerge.MergeRra` | src/cpf_fcv_reviewer/review_engine.py:331-399 | The two loops with their growing set of used ids compute, row by row, what is kept, downgraded or added. |
| `RepairMerge.OfferIsTaken` | src/cpf_fcv_reviewer/review_engine.py:344-376 | Under a coverage repair the draft's first usable downgrade of an absence claim is taken, but for its citations, unless it would rest on original evidence that is itself unavailable. |
| `RepairMerge.NoOfferNoChange` | src/cpf_fcv_reviewer/review_engine.py:344-379 | Without such an offer a supported row stays as it was and an unsupported one goes. |
| `RepairMerge.UsedExactly` | src/cpf_fcv_reviewer/review_engine.py:371-379 | Identities closed to the draft are exactly those of kept rows and of absence claims under repair. |
| `RepairMerge.AddedExactly` | src/cpf_fcv_reviewer/review_engine.py:380-399 | Of the draft rows that may be added, exactly the first of each identity is, and only its citations can change. |
| `RepairMerge.MergedFits` | src/cpf_fcv_reviewer/review_engine.py:331-399 | Whatever the draft says, every merged driver row meets its contract and cites only allowed evidence. |
| `RepairSurvival.MergedEmbeds` | src/cpf_fcv_reviewer/review_engine.py:331-399 | Every supported original driver row survives the merge, in order and word for word, unless a coverage repair downgraded its absence claim. |
| `RepairSurvival.EmbedsTransitive` | src/cpf_fcv_reviewer/review_engine.py:331-399 | Survival in order composes over successive repairs, and what happened to each text is what the one guard and then the other allowed. |
| `RepairStrategy.NormalizeStrategy` | src/cpf_fcv_reviewer/review_engine.py:425-506 | The loop over the shifts chooses for each the row its branches select from the first, the first safe and the first safe draft row. |
| `RepairStrategy.StrategyRowFits` | src/cpf_fcv_reviewer/review_engine.py:425-506 | The chosen row is about its shift and meets the row contract, for every draft and every combination of flags. |
| `RepairStrategy.AlwaysSafeIff` | src/cpf_fcv_reviewer/review_engine.py:427-502 | The chosen row cites only available evidence, with its registry entry, for every draft and flags, exactly when the shift is not ambiguous (unsafe first absence row, safe later row) or its registry entry is unavailable. |
| `RepairStrategy.AmbiguousCanFail` | src/cpf_fcv_reviewer/review_engine.py:477-502 | A concrete draft turns an ambiguous shift into a row without its evidence. |
| `RepairStrategy.SingleIsUnambiguous` | src/cpf_fcv_reviewer/review_engine.py:427-443 | At most one original row for a shift leaves no ambiguity. |
| `RepairStrategy.SafeRowIsKept` | src/cpf_fcv_reviewer/review_engine.py:425-506 | The only row of a shift, when safe, stays word for word, or is downgraded from an absence claim by a coverage repair, its evidence kept or emptied. |
| `RepairStrategy.MissingShiftIsFilled` | src/cpf_fcv_reviewer/review_engine.py:453-476 | A shift the review lacks gets the draft's first supported row, except under a coverage repair not asked for missing rows, where it gets the fallback. |
| `RepairStrategy.MissingRowIs` | src/cpf_fcv_reviewer/review_engine.py:453-476 | The row for a shift the review lacks, in every case: the draft's first supported row, without citations where missing rows are asked for and nothing was assessed, or the fallback. |
| `RepairStrategy.PresentRowIs` | src/cpf_fcv_reviewer/review_engine.py:467-506 | The row for a shift the review has, in every case: its own first supported row, the draft's, the draft's downgrade with citations emptied or taken from the review, or the fallback. |
| `RepairStrategy.StrategyOfferIsTaken` | src/cpf_fcv_reviewer/review_engine.py:477-502 | Under a coverage repair the draft's downgrade of a supported absence claim is taken under its own identity. |
| `RepairStrategy.FallbackOnlyWhenNothing` | src/cpf_fcv_reviewer/review_engine.py:467-506 | A shift with a supported original row never falls back: its row is the review's own or the draft's. |
| `RepairText.FaultsAreCured` | src/cpf_fcv_reviewer/review_engine.py:541-553 | Where a draft row is the only one of its identity on both sides, every fault of the kept row's text that the draft's does not share is gone, field by field, and a field with none cured stays. |
| `RepairText.UniqueRowAuthorises` | src/cpf_fcv_reviewer/review_engine.py:564-584 | A draft row whose identity is unique on both sides rewords its row. |
| `RepairText.CuresIs` | src/cpf_fcv_reviewer/review_engine.py:541-553 | A draft's text is taken exactly when some fault of the old text is none of its own. |
| `RepairText.LastRowAuthorises` | src/cpf_fcv_reviewer/review_engine.py:567-584 | Outside limited mode the last draft row of the same name rewords its row. |
| `RepairText.LastStrategyAuthorises` | src/cpf_fcv_reviewer/review_engine.py:591-609 | So does the last draft row of the same shift and name a strategy row. |
| `RepairText.NoRowNoRewording` | src/cpf_fcv_reviewer/review_engine.py:581-582 | A row without a draft row of its name stays. |
| `RepairText.NoStrategyNoRewording` | src/cpf_fcv_reviewer/review_engine.py:606-607 | So does a strategy row without one of its shift and name. |
| `RepairText.AmbiguousRowStays` | src/cpf_fcv_reviewer/review_engine.py:564-571 | In limited mode an identity repeated on either side rewords nothing. |
| `RepairText.AmbiguousStrategyStays` | src/cpf_fcv_reviewer/review_engine.py:585-596 | In limited mode a shift and name repeated on either side reword nothing. |
| `RepairText.RewordedRraFits` | src/cpf_fcv_reviewer/review_engine.py:533-614 | Rewording and scrubbing change no identity or rating, keep the row contract, and change a text only to one that cures a fault of it. |
| `RepairText.RewordedStrategyFits` | src/cpf_fcv_reviewer/review_engine.py:556-614 | The same for strategy rows. |
| `RepairPriorities.PreservePriorityCoverage` | src/cpf_fcv_reviewer/review_engine.py:630-674 | The loop restores every original area, corrected by the one draft area that answers it, if there is exactly one. |
| `RepairPriorities.CoverageIsPreserved` | src/cpf_fcv_reviewer/review_engine.py:630-674 | Areas keep their number, order, identity, locator, gap and sensitivity; citations that were all available only gain registry entries. |
| `RepairPriorities.CorrectionIsTaken` | src/cpf_fcv_reviewer/review_engine.py:636-667 | The one draft area that answers an area rewrites its narrative and action; scale, comment and citations change only where issues question them. |
| `RepairPriorities.OmissionRestores` | src/cpf_fcv_reviewer/review_engine.py:637-643 | An area the draft omits comes back untouched. |
| `RepairPriorities.RepetitionRestores` | src/cpf_fcv_reviewer/review_engine.py:637-643 | So does an area the draft answers more than once. |
| `RepairPriorities.SummaryIs` | src/cpf_fcv_reviewer/review_engine.py:669-673 | Unless it was in question the revision summary keeps its entries, each in the draft's last words about its area, if any. |
| `RepairPriorities.SupportIsSupplied` | src/cpf_fcv_reviewer/review_engine.py:654-666 | An area without registry support gains exactly the draft's available registry entries when that was an issue. |
| `RepairPriorities.LinkageIsPreserved` | src/cpf_fcv_reviewer/review_engine.py:669-673 | A sound link between summary and priorities stays sound when it was not itself an issue. |
| `RepairPriorities.RestrictToMechanical` | src/cpf_fcv_reviewer/review_engine.py:823-857 | With only mechanical issues the review itself stands in for the draft, but for overlong actions, registry citations and referrals. |
| `RepairPriorities.MechanicalIs` | src/cpf_fcv_reviewer/review_engine.py:823-857 | When at least one issue was raised and every one is of the three put right by rule, all but priorities and questioned referrals is the review's own; in every other case the draft stands as it is. |
| `RepairPriorities.MechanicalAreaIs` | src/cpf_fcv_reviewer/review_engine.py:828-853 | A priority put right by rule changes only its action, when that was an issue and is too long, and its citations, which gain exactly the draft's available registry entries when that was an issue and it had none. |
| `Repair.RepairReview` | src/cpf_fcv_reviewer/review_engine.py:822-925 | The stages in the program's order compute the specified repaired review, of which the following rows say what it is. |
| `Repair.RepairCorrectsRra` | src/cpf_fcv_reviewer/review_engine.py:894-904 | When an issue put wording in question, a supported driver row that the draft answers with one row of its identity, unique on both sides, is corrected: in each field every fault under repair that the draft's text lacks is gone, scrubbing aside. |
| `Repair.RepairCorrectsStrategy` | src/cpf_fcv_reviewer/review_engine.py:894-904 | So is a shift's only, supported strategy row. |
| `Repair.FaultsInForce` | src/cpf_fcv_reviewer/review_engine.py:878-904 | Which faults count: forbidden phrases always, date conflicts when they were an issue, overclaims when they were one in limited framing. |
| `Repair.RepairAddsRow` | src/cpf_fcv_reviewer/review_engine.py:865-893 | A supported driver row that only the draft has is added, unless a coverage repair was not asked for any or a limited repair allows none. |
| `Repair.CoverageAddsNoRow` | src/cpf_fcv_reviewer/review_engine.py:861-893 | A coverage repair that is not asked for driver assessments adds none of a new identity. |
| `Repair.RepairFillsShift` | src/cpf_fcv_reviewer/review_engine.py:861-877 | A shift the review lacks is filled by the draft's first supported row, unless a coverage repair was not asked for missing rows. |
| `Repair.RepairedRra` | src/cpf_fcv_reviewer/review_engine.py:331-399 | After a whole repair, driver rows are valid, cite allowed evidence only, and hold in order every supported original, unchanged but for guarded text or, in a coverage repair, a downgrade. |
| `Repair.RepairedStrategy` | src/cpf_fcv_reviewer/review_engine.py:402-518 | After a whole repair there is one valid strategy row for each shift in declaration order, with text changed only as guarded. |
| `Repair.RepairIsSound` | src/cpf_fcv_reviewer/review_engine.py:748-925 | For every draft and every set of issues, assessments of a repaired unambiguous review are sound: valid rows, one per shift, all evidence available, registry entries where something was assessed. |
| `Repair.RepairIsSoundIff` | src/cpf_fcv_reviewer/review_engine.py:427-506 | With given evidence, every repair of a review leaves sound assessments exactly when none of its shifts is confusable. |
| `Repair.ConfusableCanFail` | src/cpf_fcv_reviewer/review_engine.py:477-502 | For a confusable shift there is a valid draft whose repair leaves an unsupported strategy row. |
| `Repair.SoundPassesValidation` | src/cpf_fcv_reviewer/validators.py:493-569 | Sound assessments raise neither `incomplete_strategy_assessment` nor `unknown_assessment_evidence`. |
| `Repair.RepairKeepsStrategyRow` | src/cpf_fcv_reviewer/review_engine.py:425-506 | A shift's only row, when supported, keeps identity, rating and all but guarded text through a whole repair, or is downgraded by a coverage repair, and stays its shift's only and supported row. |
| `Repair.RepairKeepsPriorities` | src/cpf_fcv_reviewer/review_engine.py:858-860 | The whole repair keeps the priorities and, unless questioned, a sound link to the summary. |
| `Repair.RepairsAreSound` | src/cpf_fcv_reviewer/runtime.py:1615-1638 | After any number of repairs, at least one, the assessments are sound and neither issue can be raised. |
| `Repair.RepairsKeepRra` | src/cpf_fcv_reviewer/runtime.py:1615-1638 | Supported driver rows survive any number of repairs, in order: text changed only as each pass's guard allowed in turn, a rating only by a downgrade, and that only if some pass was a coverage repair. |
| `Repair.RepairsKeepStrategyRow` | src/cpf_fcv_reviewer/runtime.py:1615-1638 | So does a shift's only supported strategy row, in the shift's place. |
| `Repair.RepairsKeepPriorities` | src/cpf_fcv_reviewer/runtime.py:1615-1638 | Priorities survive any number of repairs, and so does a sound link to the summary that no pass questioned. |
| `Repair.RepairOnce` | src/cpf_fcv_reviewer/runtime.py:1615-1630 | One repair followed by validation reports neither of the two assessment issues, a linkage issue only if it was there before, and the missing driver assessment and the absence claim exactly when they are there. |
| `Repair.MechanicalKeepsAssessment` | src/cpf_fcv_reviewer/review_engine.py:823-857 | When every issue is mechanical, readouts, limitations and area narratives are the review's own whatever the draft says, and driver rows are its supported ones. |
| `Repair.EveryTextIsScrubbed` | src/cpf_fcv_reviewer/validators.py:282-310 | When raw evidence names were an issue, every text the validator joins for its reader-facing checks has been scrubbed; none is passed over. |
| `Repair.ScrubbedIs` | src/cpf_fcv_reviewer/review_engine.py:198-246 | Scrubbing rewrites every text a reader sees where it stands, comments included, and drops or changes nothing else. |
| `Repair.LimitedAddsNoRow` | src/cpf_fcv_reviewer/review_engine.py:882-893 | A limited-mode repair that is not asked for driver assessments leaves only driver identities the review already had. |
| `Repair.ApprovedReferralsStay` | src/cpf_fcv_reviewer/review_engine.py:907-915 | When referrals were an issue and the registry is known, exactly the review's own approved referrals remain; otherwise the draft's stand, or the review's own in a repair by rule. |
| `ClaimSelection.QualifyingClaims` | src/cpf_fcv_reviewer/research_controller.py:522-564 | The loop with running counts selects exactly the claims that have room at their turn, newest first. |
| `ClaimSelection.QualifyingFits` | src/cpf_fcv_reviewer/research_controller.py:522-574 | Selected claims are at most six, from at most three sources and of at most six thousand characters, stand newest first with undated ones last, and each is an offered one. |
| `ClaimSelection.LeftOutOnlyByCaps` | src/cpf_fcv_reviewer/research_controller.py:550-563 | An offered claim is left out exactly when adding it at its turn would make more than six claims, three sources or six thousand characters. |
| `ClaimSelection.CharactersAddUp` | src/cpf_fcv_reviewer/research_controller.py:550-563 | The characters of claims are those of each, added up. |
| `ClaimSelection.OfferedIs` | src/cpf_fcv_reviewer/research_controller.py:522-549 | Exactly these accepted claims are offered: with quote and relevance and not known to be irrelevant, those dated within the window as they are, and undated ones known to matter as unverified. |
| `ClaimSelection.QualifyingIdempotent` | src/cpf_fcv_reviewer/research_controller.py:522-564 | Selecting again changes nothing. |
| `ClaimSelection.RetainPublicClaims` | src/cpf_fcv_reviewer/public_research.py:145-170 | The claims retained are, in order and by their places, exactly those with nothing held against them; every other claim's reason is recorded under its name, and no other name is. |
| `ClaimSelection.RefusalIs` | src/cpf_fcv_reviewer/public_research.py:145-170 | What is held against a claim, the first of these: its name is repeated in the search, it is licensed, it has no public address, it says nothing of relevance, or it is not permitted. |
| `ClaimSelection.MergeClaims` | src/cpf_fcv_reviewer/research_controller.py:413-426 | Nothing accepted is lost or replaced; exactly the new acceptable claims are added, in the order found; exactly the other claims leave a reason, under their name or as a duplicate; older reasons stay. |
| `ResearchController.MissingCoverage` | src/cpf_fcv_reviewer/research_controller.py:703-728 | Nothing is missing exactly when there is full evidence, and each label is reported exactly when what it names is missing. |
| `ResearchRun.EnoughIs` | src/cpf_fcv_reviewer/research_controller.py:703-728 | Full evidence is enough verified claims, enough publishers by their keys, a verified claim of each kind, and a verified one dated within the window. |
| `ResearchController.Run` | src/cpf_fcv_reviewer/research_controller.py:202-389 | For every clock, search, recovery and jitter each thing the run does may follow what it did before, by the automaton of `ResearchRun.Follows`, and it ends as a run that did this must, with what `ResearchSafety.RunFits` says of every such run. |
| `ResearchSafety.RunFits` | src/cpf_fcv_reviewer/research_controller.py:220-389 | A raised configuration or unclassified failure was met by the run's last call, and a call that meets one ends the run; any other exception is a timeout when the run is out of time, else the last search's failure, else the rejection of all claims or insufficiency, and comes only with attempts and recovery used, or time, and nothing recent to show. A run without exception ends with one tier event, last: full exactly on full evidence, reduced on less, document-led on nothing and with permission. |
| `ResearchSafety.CallsFit` | src/cpf_fcv_reviewer/research_controller.py:220-300 | Primary searches are numbered from one and at most as many as configured, and there is at most one recovery. |
| `ResearchSafety.WaitsFit` | src/cpf_fcv_reviewer/research_controller.py:221-225 | No attempt but the first begins at or past the budget, and no sleep is longer than what remains. |
| `ResearchSafety.ClaimsFound` | src/cpf_fcv_reviewer/research_controller.py:247-302 | Every accepted claim was found by a search made, or by a recovery that came back in time. |
| `ResearchSafety.ClaimsMerged` | src/cpf_fcv_reviewer/research_controller.py:413-426 | No acceptable claim that a search made or a recovery in time has found is passed over. |
| `ResearchController.PrepareRetry` | src/cpf_fcv_reviewer/research_controller.py:391-411 | A wait is set up only with time left, says what is missing and lasts as the jitter says or as long as time is left; without time the loop is left, and a jitter that is no delay raises. |
| `ResearchController.TakeRecovery` | src/cpf_fcv_reviewer/research_controller.py:276-302 | What recovery found is merged exactly when it came back within the budget. |
| `DigestPlan.PlanDigests` | src/cpf_fcv_reviewer/document_digest.py:60-70 | The rest fits a nonnegative budget, no plan with fewer documents fits, no chosen document could stay verbatim, and a chosen document is larger than one that stays, or as large and before it. |
| `DigestPlan.LargestPrefix` | src/cpf_fcv_reviewer/document_digest.py:65 | No set of as many documents holds more characters than the first in order. |
| `DigestPlan.CiteSegments` | src/cpf_fcv_reviewer/document_digest.py:210-219 | The loop cites the first forty distinct known segments in the order the key points name them. |
| `DigestPlan.CitedFits` | src/cpf_fcv_reviewer/document_digest.py:210-219 | At most forty segments are cited, none twice or unknown, each named by a point, and a known one named by a point is left out only when forty are cited. |
| `DigestPlan.CitedInOrder` | src/cpf_fcv_reviewer/document_digest.py:210-219 | A cited segment is named before any other known one that is cited later or not at all. |
| `PageSampling.SampleFits` | src/cpf_fcv_reviewer/extraction.py:78-106 | Without a limit every page, with none left no page, and else as many distinct pages as the limit allows, in order and in range, with four leading pages or as many as fit, and the last. |
| `PageSampling.InteriorFits` | src/cpf_fcv_reviewer/extraction.py:92-105 | Interior pages strictly increase from the first interior page to the last, so removing duplicates removes nothing although ties round to even. |
| `PageSampling.InteriorAt` | src/cpf_fcv_reviewer/extraction.py:92-105 | A single interior page is the first after the leading ones; of several, each is the page nearest to its even share of the way from the first interior page to the last, ties to the even one. |
| `PageSampling.SampleGaps` | src/cpf_fcv_reviewer/extraction.py:92-106 | With two interior slots or more, no two neighbouring pages are further apart than the exact step plus one. |
| `PageSampling.RoundIncreases` | src/cpf_fcv_reviewer/extraction.py:97-102 | Quotients more than one apart round to different integers under half-even rounding. |
| `PageSampling.TiesCollide` | src/cpf_fcv_reviewer/extraction.py:97-102 | Quotients exactly one apart round to the same integer just when both are ties and the lower is odd, so the previous fact is the best possible. |
| `ChunkText.ChunkText` | src/cpf_fcv_reviewer/extraction.py:262-283 | The loop ends and returns the specified chunks. |
| `ChunkText.BoundaryFits` | src/cpf_fcv_reviewer/extraction.py:271-279 | A cut falls in the second half of the window, at its last space or newline when it has one, else at four thousand. |
| `ChunkText.NoWordIsCut` | src/cpf_fcv_reviewer/extraction.py:271-281 | Where the second half of the window holds a space or newline, white space is dropped at the cut, so no word is split. |
| `ChunkText.ChunksFit` | src/cpf_fcv_reviewer/extraction.py:262-283 | Weaving the chunks with white space gives the stripped text back. |
| `ChunkText.ChunkedText` | src/cpf_fcv_reviewer/extraction.py:262-283 | For every text: the filter removes nothing, chunks are nonempty and at most four thousand characters, the text is the chunks with white space between and around them, and the count is at most length/2000 plus one. |
| `CountryMatch.SourceMentionsCountry` | src/cpf_fcv_reviewer/public_research.py:1101-1139 | The nested loops over the country table compute the check on words. |
| `CountryMatch.MarkersAre` | src/cpf_fcv_reviewer/public_research.py:1092-1099 | The names that count are those of the first country that goes by the selected name, aliases included, or else that name alone. |
| `CountryMatch.CompoundAre` | src/cpf_fcv_reviewer/public_research.py:1120-1130 | The names removed are exactly those of countries that do not go by the selected name and that have the words of a name that counts within them. |
| `CountryMatch.MatchIff` | src/cpf_fcv_reviewer/public_research.py:1131-1139 | A name matches after the removals exactly where it occurs in the source with none of its words removed: removals never join words into a match. |
| `CountryMatch.RemovalIsExact` | src/cpf_fcv_reviewer/public_research.py:1120-1135 | A word is removed only inside an occurrence of a removed name, and every occurrence of a removed name loses a word. |
| `CountryMatch.UntouchedSurvives` | src/cpf_fcv_reviewer/public_research.py:1120-1139 | An occurrence that shares no word with any removed name survives all removals. |
| `CountryMatch.MentionsIff` | src/cpf_fcv_reviewer/public_research.py:1101-1139 | The whole check is true exactly when a name of the country occurs with none of its words removed; an occurrence overlapping no compound name of another country is always enough. |
| `WarningLedger.RemoveEachBag` | src/cpf_fcv_reviewer/runtime.py:783-793 | Removing warnings takes away one copy for each removal, where there is one. |
| `WarningLedger.ExtractOptionalUploads` | src/cpf_fcv_reviewer/runtime.py:575-641 | The step fails exactly when, in strict mode, more than forty uploads come or one has no usable sample, or, otherwise, one meets an unexpected exception or is too large while its name suggests a diagnostic, and then as the first such upload calls for. Else the uploads retained are, in order and by their places, exactly the supported ones with a usable sample, their samples are held, and the warnings are theirs and one notice for each other upload. |
| `WarningLedger.RunContext.Extract` | src/cpf_fcv_reviewer/runtime.py:1011-1034 | It fails exactly when either group does; else both groups hold what their samples give, and the warning list is the primary's, the held documents' and the notices. |
| `WarningLedger.RunContext.ReplaceDiagnostic` | src/cpf_fcv_reviewer/runtime.py:766-780 | Holding the diagnostic in full exchanges its document and its warnings and nothing else. |
| `WarningLedger.ExtractAllInFull` | src/cpf_fcv_reviewer/runtime.py:644-675 | Exactly when every package document but the diagnostic has a usable full extraction, all end in full with their warnings exchanged; else the step fails as the first without one calls for. |
| `WarningLedger.ExtractWherePossible` | src/cpf_fcv_reviewer/runtime.py:690-720 | Unless one meets an unexpected exception, exactly the context documents with a usable full extraction are replaced by it, and the others keep sample and warnings. |
| `WarningLedger.RunContext.HoldInFull` | src/cpf_fcv_reviewer/runtime.py:1465-1511 | The step fails exactly when the diagnostic, a package document or an unexpected exception makes it, the first of these saying how. Else the list is exactly the primary's warnings, the notices and the warnings of the documents now held, which are the full ones wherever one was usable. |
| `WarningLedger.SamplingWarningIff` | src/cpf_fcv_reviewer/runtime.py:300-315 | The list carries a sampling warning exactly when some held document is still sampled. |

## Left out

- `next_event` of both stores: the volatile one pops and renumbers and the persistent one keeps offsets, so the two differ by design.
- SQLite, JSON, zlib and base64 internals: tables are maps, a transaction is atomic, and the text form of bytes is any injective codec. Numbers are integers, and tuples, which JSON turns into lists, are not among the payload values.
- The in-process queue used with the volatile store: the run protocol is over the persistent store's worker.
- Liveness after a crash between saving a terminal state and emitting its event: the program does not guarantee it, so only safety is proved.
- Model, search, RSS and HTTP gateways, PDF, DOCX and XML parsing, Word rendering, browser rendering, Flask plumbing, configuration and logging: foreign calls or layout.
- Emitters that raise: the orchestrator and the research controller are modelled with an emitter that returns.
- Several server processes at once: the assistant's lock and the in-progress flag serialise one process.
- AssistantStream.ParsingUndoesPrinting: `JSON.parse` is modelled on the objects the server prints and takes any other text as an error, because only the server writes the stream.
- AssistantReply.Receive: a page that turns to another review while a reply arrives ignores the rest of it; that gate is not modelled.
- SqliteStore.Sqlite.Create: takes payloads without a dictionary that is exactly the bytes marker, which would come back as bytes or not at all, and statuses that are text, which is all the program stores.
- SqliteStore.Sqlite.Update: the same for the values, with a status that is text or none.
- SqliteStore.Sqlite.Emit: the same for the event's data.
- SqliteStore.Sqlite.Perform: the same for whichever call it makes.
- ReviewValidator.Validate: models the checks on assessment rows, priority and summary linkage; the checks on wording, dates, registry support and stage are patterns over text that no repair theorem here needs.
- Repair.RepairReview: text checks, scrubbing and word counts are arbitrary functions, scrubbing being required only never to leave a text blank; a scrubbed title can exceed its hundred characters and fail the title's own contract, so no claim is made about titles, and the repair's metadata is not modelled.
- ResearchController.Run: event data other than attempt, missing coverage, tier, reason and the number of claims after a recovery, prompts, limitation wording and diagnostics counts are not modelled; a delay that is not a finite nonnegative number is one that is negative.
- ClaimSelection.QualifyingClaims: the two-year window, URL normalisation, case folding, blankness and the length of a claim's JSON are parameters.
- PageSampling.SampleFits: rounding is of the exact quotient, which the program's floating-point division gives for every page count that fits a document.
- CountryMatch.SourceMentionsCountry: normalising text to words and the table of countries are inputs; a name is matched on whole words, as its word boundaries require.
- WarningLedger.RunContext.HoldInFull: identifying the diagnostic among the uploads, its provenance and the later digest warnings are outside the step; a step that fails leaves the list as the program does and nothing is claimed of it.
- The digest request itself, its schema retry and its rendering in `document_digest.py`, registry loading, `_select_role_segments` and field checks beyond the assessment rows: single-branch facts or unused code.
