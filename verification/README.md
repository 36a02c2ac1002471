# Verified model of the support platform's core

The repository is a support chat: a Django service answers visitors' questions from a knowledge
corpus with a language model, and a JavaScript widget shows the answers. This project models the
parts whose correctness is least obvious and proves what they are for. Each `.dfy` file is one module.

| module | what it models |
|---|---|
| `Prelude`, `PyText`, `TextSplit` | shared sequences; Python's `split`/`join`; JavaScript's `split`/`trim` |
| `TokenStream`, `JsonText`, `SseStream`, `AnswerDelivery` | the answer on its way: model deltas, regrouping, event stream, network cuts, widget |
| `Calendar`, `Metering`, `Origins`, `Subscription` | monthly windows, usage, install origins, expiry and renewal |
| `Corpus`, `CorpusRecovery`, `RagFreshness` | the three corpus files, crashes and repair at boot, requests against concurrent writers |
| `Chunker`, `EchoFilter`, `HtmlText`, `Crawler` | sentence chunks, prompt-echo filter, HTML to text, the crawl |
| `AbuseGuard`, `Retrieval`, `PromptBudget` | blocking of visitors, ranking of chunks, the prompt |

Code that updates objects or loops over local variables is a class or a method here, proved equal to
a function of the old state or the inputs; the theorems are about those functions and about all their
runs. Where the code is an expression, the model is a function.

Statements are for all inputs. A precondition says what the callers guarantee, or which inputs a property
is about. Where the code does not do what its text says, the model has an input that shows it and, nearly
always, the exact condition under which the code does.

## Where the code does something else than its text says

The model follows the code. These are the differences it makes visible.

- `get_monthly_window` speaks of the window "that contains now" and gives an inclusive end date in its
  example. The end is exclusive, and after a month shorter than the anchor day there are up to three days
  that lie in no window (`Calendar.WindowContainsNow`, `Calendar.GapExample`); messages of those days are
  in no cycle's usage (`Metering.ConservedIffGapsUnused`).
- `_ensure_corpus` promises a directory that no longer makes every request fail. It keeps files it cannot
  read, compares chunks with embeddings and never looks at the metadata. A delete writes in place: if it
  dies inside a write, or between its second and third file, every boot keeps the directory and the
  retriever refuses it (`CorpusRecovery.CrashedDelete`, `CorpusRecovery.TornStays`).
- A rebuild that dies and did not change the number of chunks is not noticed: new text is served under
  old vectors (`CorpusRecovery.TornRebuildExample`; exact condition in
  `CorpusRecovery.CrashedRebuildAtomicIff`).
- `remove_document_embeddings` leaves three empty files after the last document; the retriever refuses
  them, while `delete_document_artifacts` removes the files (`Corpus.RemoveRemoves`).
- `get_rag_service` compares file times to reload a changed corpus. All absent files have the same time,
  so a service loaded while its request had seen an empty directory is not reloaded when the corpus is
  emptied again, and deleted documents are served (`RagFreshness.DeletedDocumentServed`; exact condition in
  `RagFreshness.StaleIffArmed`).
- A comment at `_visitor_is_blocked` says that the visitor is unblocked with the last blocked row. A
  visitor who trips the guard in somebody else's conversation stays blocked by the cache entry alone
  (`AbuseGuard.StickyEntryOutlivesRows`; exact condition in `AbuseGuard.ChatKeepsBackedIff`).
- "Unblock all" is meant to wipe every sticky entry. Its sweep compares the entry's own prefix with the
  stored keys, which Django puts behind a version prefix, so entries without a blocked row survive
  (`AbuseGuard.UnblockAllFreesIff`).
- Context blocks are compared before they are cut to the budget, so a cut last block can repeat an
  earlier one (`PromptBudget.CutCanRepeat`; exact condition in `PromptBudget.RepeatedTextIff`).
- Saving the origins list is not idempotent (`Origins.SaveTwiceDiffers`; exact condition in
  `Origins.SaveTwiceIff`), and an expiry and renewal restores exactly the lists a save does not rewrite
  (`Subscription.RenewalRestoresIff`).
- The cached expiry flag alone lags behind the expiry (`Subscription.AskingAloneIsStale`; exact condition
  in `Subscription.AskingAloneIff`); the callers therefore enforce first (`Subscription.AnswerIsExact`).
- The echo filter can complete a quoted window with its own marker if a reference contains the marker's
  first word (`EchoFilter.MarkerCompletesEcho`; exact condition in `EchoFilter.EchoLeftIff`).
- Streaming sends each token before the echo filter runs on the assembled answer: the visitor is shown
  echoes that are not stored (`AnswerDelivery.StoredIffNoEcho`).
- A void tag outside the six listed ones inside a dropped container, such as `<wbr>` in `<nav>`, makes
  the parser drop the text after the container (`HtmlText.DroppedContainer`, `HtmlText.WbrSwallowsText`).
- Recorded chunk offsets lag behind the text by one character for each earlier full chunk of the page
  (`Chunker.OffsetsDrift`).
- The crawl fetches only URLs of the start host (`Crawler.CrawlJob.Run`), but the address a redirect ends
  at is not compared with it, and such a page is filed (`Crawler.OffHostPageFiled`; exact condition in
  `Crawler.FiledAtHomeIff`).

## Model

| member | source | states |
|---|---|---|
| `TokenStream.StreamGenerate` | rag/llm_wrapper.py:97-121 | the regrouping loop yields the grouping of all the model's text; "empty response" is raised exactly when no delta carried text; a broken provider stream has yielded the full groups and nothing else |
| `TokenStream.GroupsLoseNothing` | rag/llm_wrapper.py:107-119 | the groups concatenate to the text, none is empty, all but the last have exactly `chunk_size` characters |
| `TokenStream.GroupsUnique` | rag/llm_wrapper.py:107-119 | only one sequence of groups has those shapes and that text |
| `TokenStream.FullGroupsArePrefix` | rag/llm_wrapper.py:99-117 | a stream that fails midway has shown a prefix of the text and holds back less than one group |
| `TextSplit.SplitAtFirst` | static/widget.js:2440 | the leftmost separator decides the first piece of a split |
| `TextSplit.SplitAppend` | static/widget.js:2439-2441 | splitting a text that arrives in two parts: all but the last piece of the first part is final, the last piece is carried over |
| `SseStream.StreamClient.OnChunk` | static/widget.js:2439-2442 | one network read keeps the text after the last blank line and consumes every complete raw event in order |
| `SseStream.StreamClient.OnRawEvent` | static/widget.js:2442-2451 | one raw event is decoded from its `event:` and `data:` lines; without data or with broken JSON it changes nothing |
| `SseStream.StreamClient.Dispatch` | static/widget.js:2452-2472 | what meta, token, done and error events change, and that the buffer is untouched |
| `SseStream.GetIsLast` | static/widget.js:2452-2470 | of two members of the same name the later decides; an absent one, or one that is no text, is read as empty |
| `SseStream.FeedTwice` | static/widget.js:2436-2442 | two reads leave the widget as one read of the joined text |
| `SseStream.CutsDoNotMatter` | static/widget.js:2436-2475 | for every text and every cutting of it, the widget ends in the state it reaches from the uncut text |
| `SseStream.NoEarlyBlankLine` | chat/views.py:577-578 | no proper prefix of a printed event contains a blank line |
| `SseStream.SplitPrinted` | chat/views.py:577-578 | in any continuation of the stream a printed event is cut off as one piece |
| `SseStream.DecodeBody` | static/widget.js:2443-2451 | decoding what was printed gives back name and data |
| `SseStream.TruncatedStream` | static/widget.js:2436-2442 | a stream that stops anywhere: exactly the events that arrived whole have been applied and the rest waits in the buffer |
| `SseStream.AnyCuttingDecodes` | static/widget.js:2433-2475 | whatever the cuts, exactly the printed events are applied, in order, and the buffer ends empty |
| `JsonText.EscapeRoundTrip` | chat/views.py:578 | an escaped string parses back to itself and the parser stops at its closing quote |
| `JsonText.UnicodeEscape` | static/widget.js:2450-2451 | an escape with four hexadecimal digits, in either case, is read as the character they number |
| `JsonText.ValueRoundTrip` | chat/views.py:578 | any printed value parses back and the parser stops at its end |
| `JsonText.DumpsRoundTrip` | static/widget.js:2450-2451 | a printed object parses back to the same members: nested objects and lists, strings, numbers as written, booleans and null |
| `JsonText.JsonIsLawful` | chat/views.py:577-578 | printed objects contain no raw newline and no outer white space, whatever their values contain, so the stream format may carry them |
| `AnswerDelivery.AnswerArrives` | chat/views.py:1064-1138 | from the source of the answer (model deltas, cached answer, no-context phrase, or an error before any token) through regrouping, redaction, printing with any lawful JSON codec and any network cuts: the widget shows exactly the texts sent and ends either finished with the server's metadata or failed with a message, also when saving the answer fails |
| `AnswerDelivery.FinishedIff` | chat/views.py:1083-1138 | the widget ends finished, with the server's metadata and no failure, exactly when the turn could be stored and was a canned one, a completed one that is not blank after redaction, or a broken one that had sent a group; otherwise it ends failed, without metadata |
| `AnswerDelivery.CannedIsShown` | chat/services.py:278-303 | a cached answer or the no-context phrase is shown as it is, a refused turn shows nothing |
| `AnswerDelivery.ConversationIsServers` | chat/views.py:1065-1072 | the widget ends in the conversation the server named, and in its own where none is named |
| `AnswerDelivery.NothingLostNothingInvented` | chat/services.py:305-357 | when redaction leaves the groups of this answer alone, a completed turn shows the model's text character for character |
| `AnswerDelivery.BrokenShowsPrefix` | chat/services.py:305-329 | then a turn the provider broke off shows a prefix, less than one group short of what was sent |
| `AnswerDelivery.StoredIffNoEcho` | chat/services.py:331-349 | of a completed turn whose whole answer needs no redaction, the shown text, stripped, is what is stored exactly when it has no echo of a prompt |
| `AnswerDelivery.StoredHasNoEcho` | chat/services.py:335-349 | what is stored of a completed turn has no echo of prompts that do not mention the marker |
| `Calendar.AddMonths` | chat/plans.py:69-81 | the result is a valid date exactly that many months on, on the same day or the last day of a shorter month, at the same time of day |
| `Calendar.LeapYears` | chat/plans.py:78-80 | every fourth year is a leap year, of the centuries every fourth |
| `Calendar.MonthLengths` | chat/plans.py:78-80 | months alternate between 31 and 30 days, starting again with August; February takes what is left of the year |
| `Calendar.AddMonthsMonotone` | chat/plans.py:69-81 | more months is strictly later, whatever the clamping |
| `Calendar.MonthExists` | chat/plans.py:94-100 | every instant from the anchor on lies between exactly one pair of successive boundaries, at a number that is never negative |
| `Calendar.WindowIsCycle` | chat/plans.py:90-102 | the single back-up step suffices: the window starts at the boundary of the month now is in |
| `Calendar.WindowEnd` | chat/plans.py:101-102 | the window never ends after the next boundary, at most three days before it, and on it exactly when the starting month is long enough, always for anchor days up to 28 |
| `Calendar.WindowContainsNow` | chat/plans.py:84-102 | the window contains now exactly unless last month was shorter than the anchor day and now is past that date in this month but not yet at the anchor day or the month's end; always for anchor days up to 28 |
| `Calendar.GapExample` | chat/plans.py:84-102 | an anchor of 31 January leaves 29 March in no window |
| `Metering.ComputeUnits` | chat/plans.py:53-64 | the least positive number of units that covers the text; one unit up to 150 characters whatever the size class |
| `Metering.ClassesDouble` | chat/plans.py:44-54 | each size class holds twice the characters of the one below; an unknown class is read as medium |
| `Metering.SplittingCosts` | chat/plans.py:57-64 | two messages never cost less than their texts in one, and at most one unit more |
| `Metering.UsageIsTotal` | chat/plans.py:107-116 | usage is the sum of the units of exactly the user messages within the window |
| `Metering.AnswersAreFree` | chat/plans.py:107-116 | an answer adds nothing to the usage of any window |
| `Metering.UsageSplits` | chat/plans.py:107-116 | usage of adjacent half-open windows adds up |
| `Metering.UsageStep` | chat/plans.py:84-116 | one more month adds the usage of one cycle and of the gap after it |
| `Metering.UsageAccounts` | chat/plans.py:84-116 | for every anchor, reported cycles plus the gaps between them are all units since the anchor |
| `Metering.UsageConserved` | chat/plans.py:84-116 | for anchor days up to 28 the cycles alone are all units since the anchor |
| `Metering.ConservedIffGapsUnused` | chat/plans.py:84-116 | for any anchor the cycles alone are all units exactly when no billed message was sent on such a date |
| `Metering.NeverCountedTwice` | chat/plans.py:107-116 | no message is counted in two cycles |
| `Metering.CountedWhenSent` | chat/views.py:520-534 | the window current when a user message is stored reports it, exactly when it was not stored on such a date |
| `Origins.AllowedOriginsList` | chat/models.py:88-95 | the loop computes the cleaned, non-empty, first-occurrence list |
| `Origins.CollectOrigins` | chat/models.py:91-95 | origins are pairwise different, non-empty and start with a visible character |
| `Origins.CleanAgainIff` | chat/models.py:92 | cleaning a collected origin again changes it exactly when it ends in white space |
| `Origins.PiecesOfJoined` | chat/models.py:91-117 | splitting a saved text gives back the list it was joined from |
| `Origins.SavedNotBlank` | chat/models.py:115-118 | a saved list is empty or not blank, so the stash test of the expiry code cannot miss it |
| `Origins.SaveTwiceIff` | chat/models.py:91-117 | a second save changes nothing exactly when no collected origin ends in white space |
| `Origins.SavedIffTidy` | chat/models.py:115-118 | a save leaves a text alone exactly when its lines have no commas, differ, and are origins without white space at either end or a slash at the end |
| `Origins.SaveTwiceDiffers` | chat/models.py:91-117 | a list that passes validation and that two saves rewrite differently |
| `Subscription.Deployment.EnsurePlanState` | chat/plans.py:156-183 | new rows and cache after lazy enforcement: stash once, clear, rotate the key, suspend, drop the flag |
| `Subscription.Deployment.PlanIsExpired` | chat/plans.py:186-199 | the answer, and the flag it caches |
| `Subscription.Deployment.PlanActivate` | chat/panel.py:823-863 | refused plans change nothing; otherwise the whole new state of renewal and of re-activation |
| `Subscription.RenewalMovesExpiry` | chat/panel.py:838-863 | an activation moves the expiry strictly past now and past its old value and ends the suspension |
| `Subscription.StepKeepsFlag` | chat/plans.py:156-204 | each step keeps: suspended implies expired, cached true implies expired, cached false implies not suspended |
| `Subscription.ReachedKeepsFlag` | chat/plans.py:156-204 | so does every run |
| `Subscription.AnswerIsExact` | chat/api_permissions.py:180-184 | in every reachable state, enforcing and then asking returns exactly whether the plan is expired; if time passes in between, the answer lies between the two truths |
| `Subscription.AskingAloneIff` | chat/plans.py:186-199 | asking without enforcing is right exactly unless "not expired" was cached and the plan has expired since |
| `Subscription.AskingAloneIsStale` | chat/plans.py:186-199 | a reachable state in which it is wrong |
| `Subscription.ActivationKinds` | chat/panel.py:837-858 | a running plan is extended from its own end and keeps its key and anchor; an expired one gets a new key, an expiry counted from now and a metering window that starts now |
| `Subscription.RefusedIff` | chat/panel.py:823-827 | an activation is refused, and changes nothing, exactly for a plan outside the three or a duration outside 1, 3 and 12 months |
| `Subscription.EnforceKeepsStash` | chat/plans.py:164-181 | from any state, also one edited by hand, enforcement keeps an earlier stash, stashes live origins only where there is none, and acts exactly on an expired plan not yet suspended |
| `Subscription.StepKeepsOrigins` | chat/plans.py:170-178 | each step keeps any stored origins in exactly one place, stash while suspended, live list otherwise; only a re-activation saves them once more |
| `Subscription.OriginsFollow` | chat/panel.py:838-846 | over every run of expiries and activations any stored origins are in one place and at most once re-saved for each activation; a stash implies suspension |
| `Subscription.OriginsConserved` | chat/panel.py:838-846 | tidy origins survive every run unchanged |
| `Subscription.ConservedIffTidy` | chat/panel.py:838-846 | origins survive every run unchanged exactly when they are tidy |
| `Subscription.RenewalRestoresIff` | chat/models.py:115-118 | for arbitrary origins, expiry and renewal restore them exactly when they are tidy |
| `Subscription.SuspensionRotatedKey` | chat/plans.py:170-178 | while suspended, the public key is the one issued by the request that ended the last active state |
| `Subscription.ExpiredMeansDead` | chat/plans.py:144-183 | in every reachable state, an expired plan's request is refused with no live origin and with the key issued when the last active state ended |
| `Corpus.CorpusStore.RebuildDocumentEmbeddings` | chat/document_pipeline.py:208-255 | final directory and every intermediate one; an exception leaves the directory as it was |
| `Corpus.CorpusStore.DeleteDocumentArtifacts` | chat/document_pipeline.py:412-440 | the same for a delete, which writes in place: each file is torn while it is written; an emptied corpus is unlinked |
| `Corpus.CorpusStore.RewriteInPlace` | chat/document_pipeline.py:426-440 | embeddings, chunks and metadata in this order, with all six directories a crash can leave |
| `Corpus.CorpusStore.RemoveDocumentEmbeddings` | chat/document_pipeline.py:278-318 | the same for a removal |
| `Corpus.SelectIsWithout` | chat/document_pipeline.py:213-225 | picking the kept indexes from the three lists is filtering the rows: order and pairing stay |
| `Corpus.ReplacingIsUpdate` | chat/document_pipeline.py:213-236 | seen as a map from document to chunk list, replacing one document's rows updates one key |
| `Corpus.RebuildReplaces` | chat/document_pipeline.py:208-255 | on a sound corpus a rebuild succeeds and its rows are the other documents' rows followed by the new ones |
| `Corpus.FreshRowsAre` | chat/document_pipeline.py:227-236 | new row i is chunk, page, span and vector i under the document's own title, type and number, and its URL, if it has one, cut to 1000 characters |
| `Corpus.RebuildIsMapUpdate` | chat/document_pipeline.py:208-255 | as a map, an update at one key |
| `Corpus.LastRebuildWins` | chat/document_pipeline.py:208-255 | a later rebuild of the same document erases every trace of an earlier one |
| `Corpus.RebuildIdempotent` | chat/document_pipeline.py:208-255 | rebuilding twice is rebuilding once |
| `Corpus.DeleteRemoves` | chat/document_pipeline.py:412-440 | exactly one document's rows go; no files remain exactly when no rows do |
| `Corpus.DeleteIsMapRemoval` | chat/document_pipeline.py:412-440 | as a map, a removal of one key |
| `Corpus.RunsStaySound` | chat/document_pipeline.py:208-440 | rebuilds and deletes in any order, failing ones included, only reach "no files" or "non-empty and aligned" |
| `Corpus.RemoveRemoves` | chat/document_pipeline.py:278-318 | the same removal, but sound exactly when another document is left or nothing was there |
| `CorpusRecovery.UnlinkAll` | chat/management/commands/ensure_deploy.py:99-105 | removing the existing artifacts in any order leaves none |
| `CorpusRecovery.EnsureCorpus` | chat/management/commands/ensure_deploy.py:75-135 | the directory after boot: kept if all three files exist and chunks or embeddings cannot be read or match in number, cleared otherwise |
| `CorpusRecovery.LoadsIffSound` | rag/retriever.py:53-91 | the retriever starts exactly on sound directories, without torn files, and serves their rows |
| `CorpusRecovery.RepairIsFinal` | chat/management/commands/ensure_deploy.py:75-135 | a second boot changes nothing and a sound corpus is never touched |
| `CorpusRecovery.CrashedRebuild` | chat/document_pipeline.py:238-255 | a rebuild that dies anywhere and is repaired is accepted by the retriever, and which directory it is |
| `CorpusRecovery.CrashedRebuildAtomicIff` | chat/management/commands/ensure_deploy.py:113-135 | when that is exactly the old, the new or the empty corpus; always if the number of chunks changed |
| `CorpusRecovery.TornRebuildExample` | chat/management/commands/ensure_deploy.py:125-129 | with the number unchanged, new text under an old vector |
| `CorpusRecovery.CrashedDelete` | chat/document_pipeline.py:414-440 | at each of the seven points a delete can die, repaired: accepted before the first write, after the last and after the embeddings alone, otherwise refused by the retriever for good; a delete of the last document is always accepted; what is accepted is the old, the new or the empty corpus |
| `CorpusRecovery.TornStays` | chat/management/commands/ensure_deploy.py:113-135 | a torn file among three is refused by retriever, rebuild and removal, and exactly when a boot clears it |
| `CorpusRecovery.DeleteWithTornEmbeddings` | chat/document_pipeline.py:414-440 | with torn embeddings a delete fails unless it has nothing to delete, or deletes everything and so clears the directory |
| `CorpusRecovery.CrashedRemove` | chat/document_pipeline.py:295-318 | a removal is accepted at every crash point, and when finished exactly if another document is left |
| `CorpusRecovery.AlwaysServable` | chat/management/commands/ensure_deploy.py:76-97 | over every run of rebuilds, deletes, rebuilds that die anywhere and deletes that die at a harmless point, with repairs, the retriever can start |
| `RagFreshness.WriterKeeps` | chat/document_pipeline.py:208-255 | the steps of a writer, replacing or unlinking the three files under the corpus lock, keep the invariant |
| `RagFreshness.StepKeeps` | chat/views.py:245-273 | so does every step of writers and requests, failing loads included |
| `RagFreshness.RunKeeps` | chat/views.py:245-273 | it holds in every reachable state |
| `RagFreshness.NeverTornStaleIff` | chat/views.py:245-273 | under every interleaving a request is served one whole commit, no older than any file time it read, even read in mid-write; the contents were current since its call began exactly unless a non-empty service recorded under absent files was superseded before the call |
| `RagFreshness.StaleBeganArmed` | chat/views.py:245-273 | a request served something stale found such a service when it began, whatever happened in between |
| `RagFreshness.StaleIffArmed` | chat/views.py:245-273 | in every reachable state without a held lock, the next request can be served a superseded corpus exactly when there is such a service |
| `RagFreshness.DeletedDocumentServed` | chat/views.py:247-258 | a reachable state in which a deleted document is served |
| `RagFreshness.LoadsAreExclusive` | chat/document_pipeline.py:41-48 | while one request loads, no writer writes and no other request loads |
| `RagFreshness.LocksHaveOwners` | chat/views.py:251-273 | over every run each lock is held by exactly the request that is deciding or loading: a hit, a time-out and a failed load give back what they took |
| `RagFreshness.EveryoneCanFinish` | chat/views.py:245-273 | no deadlock: in every reachable state without a writer, every request that has not failed can still be answered by steps of requests alone, whoever holds the thread lock |
| `Chunker.ChunkDoc` | rag/build_embeddings.py:42-97 | the page loop produces the specified pieces and their joined texts, one metadata item a chunk |
| `Chunker.ChunkPage` | rag/build_embeddings.py:56-93 | the same for the sentence loop |
| `Chunker.PagesRecorded` | rag/build_embeddings.py:70-92 | every chunk is recorded under the page its sentences are from |
| `Chunker.WeightIsLength` | rag/build_embeddings.py:62-66 | the running length the size is compared with is the length of the joined sentences |
| `Chunker.SentencesRecoverable` | rag/build_embeddings.py:60-93 | dropping each chunk's carried prefix and concatenating gives back the page's sentences |
| `Chunker.ChunksOverlap` | rag/build_embeddings.py:78-81 | each chunk begins with the last min(overlap, size) sentences of the one before |
| `Chunker.ChunkSizes` | rag/build_embeddings.py:60-93 | every emitted chunk reaches the size and was below it one sentence earlier, or was only carry; a page has at most one other chunk, its last |
| `Chunker.OffsetsDrift` | rag/build_embeddings.py:58-95 | `char_end - char_start` is the chunk's length, and `char_start` is its true place in the joined page less the number of earlier chunks of more than `overlap` sentences |
| `Chunker.StartsMonotone` | rag/build_embeddings.py:79-80 | starts never go back within a page |
| `Chunker.NoChunksIffNoSentences` | chat/document_pipeline.py:203-205 | the "no content" error is raised exactly when no page has a sentence |
| `EchoFilter.CollectWindows` | rag/injection_guard.py:421-423 | adds exactly the length-n windows of one reference |
| `EchoFilter.ReferenceWindows` | rag/injection_guard.py:419-423 | the set is exactly the windows of all references |
| `EchoFilter.SetFlags` | rag/injection_guard.py:426-430 | a word is flagged exactly when it lies in a window that occurs in a reference |
| `EchoFilter.CollapseRuns` | rag/injection_guard.py:433-447 | the output loop replaces each maximal flagged run by one marker |
| `EchoFilter.StripPromptEcho` | rag/injection_guard.py:413-448 | the filter, early exits included, is that specification, and `changed` tells whether any word was flagged |
| `EchoFilter.CollapseShape` | rag/injection_guard.py:433-447 | the unflagged words stay in order, and markers are as many as maximal flagged runs |
| `EchoFilter.JoinedWords` | rag/injection_guard.py:448 | splitting the output again gives its words, each marker as two |
| `EchoFilter.EchoHasMarker` | rag/injection_guard.py:426-448 | for any references, every window of a reference left in the output has a word of an inserted marker in it |
| `EchoFilter.EchoLeftIff` | rag/injection_guard.py:413-448 | an echo is left exactly when a window of a reference that mentions the marker can be read off the text around its flagged runs, each run read as the marker |
| `EchoFilter.NoEchoLeft` | rag/injection_guard.py:413-448 | so references no window of which mentions the marker leave no window in the output |
| `EchoFilter.MarkerCompletesEcho` | rag/injection_guard.py:413-448 | for every window length, references with a marker word for which the output does contain a window |
| `EchoFilter.SecondPassIdleIff` | rag/injection_guard.py:413-448 | a second pass changes nothing exactly when the first left no echo |
| `EchoFilter.SecondPassIsIdle` | rag/injection_guard.py:413-448 | so for such references a second pass changes nothing and reports no change |
| `EchoFilter.ChangedIffEcho` | rag/injection_guard.py:413-448 | with windows of three words or more, the filter changes a text, and reports it, exactly when the text has a window of a reference |
| `HtmlText.ReadableTextParser.Feed` | chat/crawler.py:133-170 | feeding a page, handler by handler, is the run of its events |
| `HtmlText.ExtractText` | chat/crawler.py:173-183 | title and text from a fresh parser: joined, cleaned, the title cut to 200 characters |
| `HtmlText.DroppedContainer` | chat/crawler.py:133-159 | leaving a dropped container: nothing collected, and the depth is back to zero exactly when it held no void tag outside the six |
| `HtmlText.ParserAgrees` | chat/crawler.py:112-170 | on a tame tree the event machine collects exactly what the recursive filter extracts and returns to its depth |
| `HtmlText.ParserAgreesAll` | chat/crawler.py:112-170 | the same for a forest |
| `HtmlText.PageText` | chat/crawler.py:173-183 | the title and text of a whole tame page are those of its tree, and the parser ends outside every container |
| `HtmlText.WbrSwallowsText` | chat/crawler.py:133-137 | an untame page whose readable text is lost |
| `Crawler.CrawlJob.Run` | chat/crawler.py:322-360 | no URL is taken twice; URLs are taken in order of their distance in clicks; every link of a fetched page that is of the start host and not skipped is taken or waiting, without its fragment, and nothing else is but the start; an empty queue means exactly the reachable URLs were taken; what is fetched is what was taken, of the start host and allowed; the found, indexed and failed counters count, failed indexing included, and only the page limit stops early |
| `Crawler.FiledAtHomeIff` | chat/crawler.py:334-358 | all filed pages are of the start host exactly when no taken page that counts was redirected to another |
| `Crawler.WholeSiteAtHomeIff` | chat/crawler.py:334-358 | for a crawl of the whole site, exactly when no reachable page that counts is |
| `Crawler.OffHostPageFiled` | chat/crawler.py:334-358 | a site of one page that is filed under another host |
| `Crawler.QueueLinks` | chat/crawler.py:341-349 | the link loop appends exactly the wanted links not seen before, one level down, and marks them seen |
| `Crawler.WantedIff` | chat/crawler.py:341-349 | the wanted URLs of a page are its links of the start host without a skipped extension, without their fragments, and no others |
| `Crawler.SameHostIff` | chat/crawler.py:281-284 | hosts are the same exactly up to one leading `www.` |
| `Crawler.TallySpelledOut` | chat/crawler.py:351-359 | filed pages and counters, read off what was fetched: pages of 120 characters or more, and what went wrong |
| `Crawler.PopHead` | chat/crawler.py:326-327 | taking the head keeps the queue ordered by level |
| `Crawler.PushLevel` | chat/crawler.py:346-349 | appending a new link keeps it ordered |
| `Crawler.WalkMeetsQueue` | chat/crawler.py:326-349 | any walk to a URL not taken crosses the queue no later than its length |
| `Crawler.TakenAtDistance` | chat/crawler.py:326-349 | a taken URL's level is its distance from the start |
| `Crawler.NotTakenIsFar` | chat/crawler.py:326-349 | what was not taken is no nearer than anything that was |
| `Crawler.EmptyQueueMeansAll` | chat/crawler.py:326-349 | an empty queue means the taken URLs are exactly the reachable ones |
| `AbuseGuard.Threshold` | chat/views.py:476-478 | between 2 and 20, 3 by default, the setting where it is in range |
| `AbuseGuard.GuardedChat.VisitorIsBlocked` | chat/views.py:438-450 | blocked by the sticky entry or by a blocked row of the fingerprint |
| `AbuseGuard.GuardedChat.GuardOnAttempt` | chat/views.py:462-496 | the new rows and cache of one attempt and whether it blocked |
| `AbuseGuard.GuardedChat.ChatGates` | chat/views.py:706-815 | outcome and state of a request through the gates in their order |
| `AbuseGuard.GuardedChat.GuardUnblock` | chat/panel.py:1044-1072 | the state after unblocking one conversation |
| `AbuseGuard.GuardedChat.GuardUnblockAll` | chat/panel.py:1081-1116 | the state after unblocking all: every row, and the entries of visitors with a blocked row |
| `AbuseGuard.BlockedStaysOut` | chat/views.py:724-752 | over every run without an unblock of a blocked conversation, no request of its visitor under any id and no request in it gets past the guard |
| `AbuseGuard.NewConversationIsOwn` | chat/views.py:326-348 | a conversation a request opens is under the requester's fingerprint, and no request changes whose a conversation is |
| `AbuseGuard.OpenerOwns` | chat/views.py:326-348 | over every run from no rows a conversation exists exactly when somebody opened it, and is theirs |
| `AbuseGuard.BlockedOpenerStaysOut` | chat/views.py:724-752 | from no rows: once the opener of a conversation is blocked in it, no later request of theirs under any id is let in until that conversation is freed, cache expiry included |
| `AbuseGuard.OneAttempt` | chat/views.py:462-496 | an attempt is counted unless the guard is off, blocks at the threshold, and touches no other row and no other visitor's entry |
| `AbuseGuard.AttemptOutcome` | chat/views.py:754-815 | when an unblocked request is answered, refused or blocks, and what each leaves behind |
| `AbuseGuard.RefusalsBounded` | chat/views.py:476-496 | with threshold T a conversation gets at most T - 1 refusals between unblocks and none while blocked |
| `AbuseGuard.ChatKeepsBackedIff` | chat/views.py:453-496 | a request keeps every sticky entry backed by a row exactly unless it is the attempt that reaches the threshold in another visitor's open conversation, by a visitor without a blocked one |
| `AbuseGuard.UnblockAllFreesIff` | chat/panel.py:1083-1116 | after "unblock all" nobody is blocked exactly when every sticky entry was backed by a blocked row; who is still blocked |
| `AbuseGuard.BackedAlways` | chat/views.py:438-496 | if visitors write in their own conversations every run keeps the cache backed |
| `AbuseGuard.BlockedIffRow` | chat/views.py:438-450 | then a visitor is blocked exactly while one of the visitor's conversations is |
| `AbuseGuard.StickyEntryOutlivesRows` | chat/panel.py:1057-1070 | otherwise an entry may outlive every blocked row |
| `Retrieval.Retrieve` | rag/retriever.py:181-217 | the filter loop with ranking and fallback is the specified result; every result exists in the corpus and their number is bounded |
| `Retrieval.CandidateIff` | rag/retriever.py:186-202 | ranked are exactly the neighbours that share a term with the query, or are close enough absolutely and against the best; the lexical score is added to the rank and not to the reported score |
| `Retrieval.CandidatesAre` | rag/retriever.py:186-202 | the candidates are those neighbours in the order of the index, one each |
| `Retrieval.FallbackResults` | rag/retriever.py:208-217 | when no hit passes, the results are the neighbours among the first five hits, in the order of the index and with their plain scores, however many were asked for |
| `Retrieval.SortIsRanking` | rag/retriever.py:204 | the ranking is a permutation in descending order of score |
| `Retrieval.SortIsStable` | rag/retriever.py:204 | candidates of equal score keep the order of the index |
| `Retrieval.TopIsBest` | rag/retriever.py:204-206 | the first k of a ranking: nothing left out scores higher than anything kept |
| `Retrieval.ResultsAreBest` | rag/retriever.py:186-206 | so are the results whenever any hit passes the filters |
| `Retrieval.ResultsInCorpus` | rag/retriever.py:186-217 | no result points outside the chunk list, in the fallback neither |
| `PromptBudget.ContextBlocks` | rag/rag_agent.py:53-74 | the context loop computes the specified blocks |
| `PromptBudget.RecentHistory` | rag/rag_agent.py:76-84 | the history loop computes the specified turns |
| `PromptBudget.FormatPromptText` | rag/rag_agent.py:50-95 | the prompt is assembled from them, or absent without results |
| `PromptBudget.PromptHolds` | rag/rag_agent.py:86-95 | a built prompt begins with the user prompt's first 3500 characters, followed in order by the rules, every kept turn of the history, every source block with its number and text, and the question |
| `PromptBudget.BuiltPromptSays` | rag/rag_agent.py:135-155 | so does the prompt built for any top_k, history, question and index hits, about the texts of the chunks retrieved and the question's first 2000 characters |
| `PromptBudget.ContextIsPrefix` | rag/rag_agent.py:55-74 | the context is exactly the first 5200 characters of the wanted texts |
| `PromptBudget.BlocksShape` | rag/rag_agent.py:56-74 | only the last block may be cut; blocks are numbered by result, never empty, never unsafe |
| `PromptBudget.SourcesDistinct` | rag/rag_agent.py:60-63 | no two blocks come from the same text, even up to case |
| `PromptBudget.BlocksAreCut` | rag/rag_agent.py:53-74 | the shown texts are the wanted texts cut to the budget one after the other |
| `PromptBudget.RepeatedTextWasCut` | rag/rag_agent.py:60-74 | two blocks with equal text: the later is the last and was cut |
| `PromptBudget.RepeatedTextIff` | rag/rag_agent.py:53-74 | two blocks show the same text exactly when the budget runs out inside a wanted text whose part that fits is an earlier wanted text |
| `PromptBudget.CutCanRepeat` | rag/rag_agent.py:60-74 | and this happens: an input |
| `PromptBudget.HistoryIsPrefix` | rag/rag_agent.py:76-84 | the history is exactly the first 2400 characters of the last eight turns |
| `PromptBudget.HistoryTailIsEnd` | rag/rag_agent.py:78 | the history is about the end of the conversation, at most eight turns |
| `PromptBudget.PartsKeepRoles` | rag/rag_agent.py:78-84 | every kept turn has the speaker of the turn it is the beginning of |
| `PromptBudget.DigitsRead` | rag/rag_agent.py:73 | the number printed in a source tag reads back as the number of its result |
| `PromptBudget.PromptNeverCut` | rag/rag_agent.py:86-95 | with at most six results the prompt stays below 14000 characters and ends with the whole question |
| `PromptBudget.QuestionAlwaysArrives` | rag/rag_agent.py:135-155 | for every top_k, corpus, history and question, the 16000-character cut of the wrapper leaves the prompt and its question whole |

## Left out

- Calendar.AddMonths: years have no upper end; the original raises an error past the year 9999. Instants are in one time zone.
- Subscription.AnswerIsExact: requests are taken one after the other; two of them interleaving inside one enforcement are not modelled. Exceptions swallowed by the two functions, and operator edits of the rows, are left out. The fresh key is a parameter; that `uuid4` never repeats one is not modelled.
- Subscription.OriginsConserved: is about tidy origins; ConservedIffTidy and OriginsFollow say what happens to all others.
- AbuseGuard.RefusalsBounded: requests are taken one after the other; two overlapping attempts can save the same or an older count, and the bound is not about them. It is about one unchanged threshold; the settings may change in BlockedStaysOut.
- AbuseGuard.BlockedIffRow: rows written before fingerprints existed, with a blank visitor key, are not modelled; sticky entries expire at any time instead of after seven days.
- RagFreshness.NeverTornStaleIff: the module globals are fields of a state machine on values, one transition a step, because requests interleave; the configuration and provider timestamps in the signature and writers that die while they hold the lock are not modelled; the times of different writes are taken to differ.
- CorpusRecovery.EnsureCorpus: a file is absent, torn or whole; that a torn file of JSON or of numbers could by chance be readable is left out.
- Corpus.CorpusStore.RebuildDocumentEmbeddings: extraction, type sniffing, the duplicate test and the document row are left out; chunks and embeddings are inputs. `Corpus.FreshFor` states what `Chunker.ChunkDoc` guarantees of them.
- Crawler.CrawlJob.Run: the site is a function from URL to outcome over a finite set of URLs, as each URL is fetched at most once; fetching, redirects, robots.txt, address checks and indexing are that function. The delay, the log and a failure of the whole job are left out.
- HtmlText.ParserAgrees: the input is a tree and the event order `HTMLParser` gives for it; tokenising HTML is not modelled, and `clean_text` is an arbitrary function.
- JsonText.DumpsRoundTrip: numbers are kept as written and not evaluated; NaN and infinities, which `json.dumps` would print, are no numbers here; the parser reads the printed form, without optional white space; escapes from 0xD800 up are not read.
- SseStream.AnyCuttingDecodes: the text is characters; the byte decoding of `TextDecoder` and the drawing of the answer are left out.
- AnswerDelivery.AnswerArrives: the two generators are modelled by the list of what they yield, not step by step; a closed browser connection is left out. The widget is modelled for text under the members it reads as text, as the server sends them.
- Retrieval.Retrieve: the index search and the lexical score are inputs; the library sort is a function; scores are reals, not floats, and NaN does not occur.
- Chunker.ChunkDoc: the sentence tokenizer is an input, including the page's raw length.
- PromptBudget.QuestionAlwaysArrives: white-space squashing, case folding and the chunk scan are arbitrary functions; roles have at most ten characters, as the stored ones do.
- Phrase books of the injection guard, secret patterns, intents and business rules: table lookups.
- Conversation tokens, encrypted fields, throttles, login limits, capacity slots, CORS: library behaviour or plain counters.
- The counter of unanswered questions: its update writes a null time, so no counting property holds.
- Forms, templates, dashboards, admin pages, migrations, widget appearance and voice: no state machine to speak of.
