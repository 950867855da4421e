# Multi-tenant chat platform: a verified model

A customer's message reaches this platform through a webhook, is queued once,
and is answered by a turn that extracts intent and slots, searches a corpus,
lets a scripted state machine decide what kind of reply is due, and only then
lets a language model compose one, behind two figure gates. These files model
that path and the stores it leans on, and prove what each part promises.

| file | part of the system |
|---|---|
| `Channels.dfy`, `Meta.dfy`, `Webhooks.dfy`, `WebhookProtocol.dfy` | the idempotency log and stream, Meta batches, the handlers, and the handlers interleaved |
| `Dialogue.dfy`, `ScriptEngine.dfy` | conversation state and the deterministic engine |
| `Router.dfy`, `Http.dfy` | circuit breakers, ordered failover, retries |
| `Chunker.dfy`, `Numerals.dfy`, `Quantities.dfy` | overlap packing, number parsing, quantity extraction |
| `Guards.dfy`, `Provenance.dfy`, `FigureAudit.dfy` | redaction, the numeric gate, the figure tracer, the claim audit |
| `Orchestrator.dfy`, `TurnSafety.dfy` | one whole turn, and what it guarantees |
| `EmbeddingCache.dfy`, `Scripts.dfy`, `Pinning.dfy` | the embedding cache, the version store with its resolver, and the worker's choice of script |

`Sequences.dfy` holds shared vocabulary. Loops and mutable objects of the
source are methods and classes proved against specification functions; the
theorems are lemmas about those functions, over every input or every run.

## Main results

- **Webhooks.** Under every interleaving an id is queued at most once per
  claim; a claim is held exactly while its id is queued or in one handler's
  hands; nothing is lost silently unless a handler dies holding it; retries
  until 200 converge to the distinct ids in order.
- **Turns.** A result is an answer exactly when the engine allows it, the
  search it reads found evidence and both gates pass, for any behaviour of
  extractor, retriever, model and auditor; every other result is the tenant's
  own wording; the ledger balances.
- **Engine.** Every decision is determined by the document, the conversation
  and the turn; slot filling converges with the number of missing slots as its
  measure, and clarifications are bounded over whole conversations.
- **Router.** Failover is "the first candidate that can settle", the primary
  before the failover, and an outage costs a bounded number of calls over any
  sequential run of requests.
- **Text.** Chunking loses nothing; redaction cuts every match of every pattern
  or one before it, and is invertible; printed figures read back, and the
  tracer and the gate agree figure by figure.
- **Stores.** The embedding cache is transparent, published scripts are
  immutable, and a pinned conversation keeps its script.

## Where the code and its description differ

The model follows the code. Each difference is a lemma that says exactly when
the description holds.

- `src/moc/llm/router.py:65` promises one trial call after the reset window,
  which closes or re-opens the circuit. For calls made one after another, they
  get through until `threshold` of them have failed transiently, and a request
  error does neither (`Router.HalfOpenLetsThroughExactly`). So the promise is
  kept exactly when nobody asks again, or the trial call fails transiently at
  a threshold of at most one (`Router.OneTrialExactlyWhenItReopens`, with a
  request error that breaks it in `Router.TrialErrorLetsAnotherThrough`).
- The degraded copy of a completion drops its cache writes
  (`Router.DegradedCopyIsFaithfulExactlyWithoutCacheWrites`).
- A sentence longer than the target is described as its own chunk; behind an
  overlap it is not (`Chunker.OversizedSentence`).
- A decimal printed by the tracer reads back exactly when its whole part
  needed no comma and it is not printed with an exponent
  (`Quantities.PrintedDecimalReadsBackExactly`), and a bare figure that
  looks like a year is no quantity (`Quantities.LoneFigureReadsBackUnlessYear`;
  in a text, exactly where `Quantities.FigureInContext` says).
- The excerpt kept as evidence is the sentence in Latin digits, which is the
  passage's own words exactly when it was written in them; where no sentence
  states the figure the passage itself is kept
  (`Provenance.ExcerptIsVerbatimExactlyInLatinDigits`).
- The tracer's sentences are described as split on the chunker's terminators,
  but it cuts at each of them, inside 6.5 too: the excerpt is a sentence of
  the chunker's exactly when only whitespace stands beside it there
  (`Provenance.ExcerptIsAChunkSentenceExactly`, with one that is not in
  `Provenance.DecimalIsCutInTwo`).
- "No error ever reaches the customer" has exceptions: a search or an
  extraction that fails otherwise than by an outage, any failure of the
  repeated search, and a composition request the provider rejects
  (`TurnSafety.RaisesExactly`).
- The figure audit vouches for the claims the auditor lists, so for every
  figure exactly when the list covers them all
  (`FigureAudit.VouchesExactlyForListedFigures`, with a reply that passes with
  a figure left out in `FigureAudit.OmittedFigureGoesUnvouched`).
- A quotation accepted by the audit is in one passage, whatever the passages,
  exactly when it has no line break at an end and no empty line inside
  (`FigureAudit.QuotationsStayInOnePieceExactly`, with one that is not in
  `FigureAudit.QuotationAcrossTwoPieces`).
- An accepted claim is meant to have its figure in the material; the search is
  for characters, so the material may state a longer number. The figure is
  there as a number of its own, whatever the material, exactly when the
  quotation has it as one with something on either side
  (`FigureAudit.FigureIsANumberExactlyInside`, with 100 accepted from 1000 in
  `FigureAudit.PartOfALongerFigureIsAccepted`).
- An unreadable cache file is described as a miss; a file whose reading fails
  otherwise than in the ways that are caught (not UTF-8, a number of thousands
  of digits, nesting too deep), or a vector without a length, fails the run
  (`EmbeddingCache.FailsExactlyOnUncaughtDamage`).
- `ScriptResolver.at` is described as never resolving a draft; it does, and
  caches it (`Scripts.AskIsSafeExactlyOffDrafts`).
- Publishing is described as never moving a conversation. The pin is the
  number inside the document, which the store does not check
  (`Pinning.PublishMovesExactlyOnAReusedNumber`), and the configuration files
  carry version 1 like a tenant's first script, so conversations begun on the
  file move onto it (`Pinning.FileConversationsMoveOnPublish`). Every other
  conversation stays (`Pinning.ConversationsKeepTheirScript`).
- The webhook comments promise that a 503 brings the message back; a process
  that dies between claim and release answers nothing, and the retry is taken
  for a duplicate (`WebhookProtocol.CrashLosesAMessage`). The promise is kept
  when no handler died holding the id (`WebhookProtocol.NoSilentLoss`), and
  broken in every continuation when one did, until the claim expires
  (`WebhookProtocol.StuckClaimIsLost`).

## Assumptions

- Database and Valkey operations are atomic, and each script-store operation
  is one transaction; a publish succeeds or fails as a whole.
- Times, embeddings, confidences and figures are reals; rounding is not
  modelled. Random draws lie in [0, 1].
- SHA-256 is injective on cache keys. An embedder answers each text with one
  vector, the same in every batch. The embedder's calls and the cache's writes
  succeed; where one fails, the run ends with its error.
- Regular-expression matches, word splitting, letter folding, stripping and
  the JSON reader of audits are parameters. Figures are written in Latin
  digits once digits are normalized.
- Script documents have the fields the engine reads, a fallback node among
  them, with inherited settings already merged and topics already collapsed
  to single spaces.
- The outage bound and what is said of a half-open breaker are for calls made
  one after another.

## Model

| member | source | states |
|---|---|---|
| `Channels.EventLog.Claim` | src/moc/channels/valkey.py:163-166 | A claim reports whether the id was unclaimed before, and leaves it claimed. |
| `Channels.EventLog.Release` | src/moc/channels/valkey.py:168-175 | A release leaves exactly that id unclaimed. |
| `Channels.InboundQueue.Publish` | src/moc/channels/valkey.py:117-123 | A publish appends the message, or fails and leaves the stream as it was. |
| `Meta.AccountRefs` | src/moc/channels/meta.py:169-184 | The page ids of a delivery, each once, in order of first appearance. |
| `Meta.BatchIsPartitioned` | src/moc/api/webhooks.py:247-283 | Over all resolved accounts, each account is given exactly the customer turns of its own page, in order, as a single walk over the entries would give them, however page ids repeat. |
| `Meta.BatchIsConserved` | src/moc/channels/meta.py:138-221 | The messages read, account by account, are the customer turns of the resolved entries as a multiset: none lost, invented or read twice. |
| `Meta.MessagesAreTheEvents` | src/moc/channels/meta.py:138-243 | In terms of entries and events: every message carries the id, sender and text of an event that is a customer's, on a connected page, for that page's account; every such event is read; and each account's messages are in the order of their events. |
| `WebhookProtocol.QueuedAtMostOnce` | src/moc/api/webhooks.py:285-296 | Under every interleaving of any number of handlers, crashes and expiries included, an id is queued at most once more than its claim has expired. |
| `WebhookProtocol.ClaimedExactlyWhenQueuedOrHeld` | src/moc/api/webhooks.py:139-152 | While its claim has not expired, an id is claimed if and only if it is on the queue or held by a handler; never both, and by one handler at most. |
| `WebhookProtocol.NoSilentLoss` | src/moc/api/webhooks.py:285-296 | Once no handler is in flight and none died holding the id, a delivered id that is not queued is unclaimed, and one of its deliveries was not answered 200. |
| `WebhookProtocol.LossIsAnswered503` | src/moc/api/webhooks.py:139-152 | The same without crashes: that delivery was answered 503. |
| `WebhookProtocol.StuckClaimIsLost` | src/moc/api/webhooks.py:39-46 | A handler that dies between claim and release loses the message in every continuation in which the claim does not expire. |
| `WebhookProtocol.CrashLosesAMessage` | src/moc/api/webhooks.py:285-296 | A concrete such run: claim, crash, and the retry is answered 200 with nothing queued. |
| `WebhookProtocol.ExpiryLetsARetryIn` | src/moc/channels/valkey.py:150-166 | Once the claim has run out, an undisturbed retry is taken and queued, in any world. |
| `WebhookProtocol.CrashStopsAHandler` | src/moc/api/webhooks.py:285-296 | A handler that dies stops where it is with what it holds, and nothing else changes. |
| `Webhooks.App.Accept` | src/moc/api/webhooks.py:139-152 | The claim, publish and release tail of a single-message route leaves the log, the stream and the status a batch of one leaves. |
| `Webhooks.App.AcceptBatch` | src/moc/api/webhooks.py:285-296 | The Meta loop: claims, publishes and releases per message, stops with 503 at the first refused publish. |
| `Webhooks.App.MetaUpdate` | src/moc/api/webhooks.py:228-296 | The whole Meta route: 400 for an unreadable or page-less document, 403 for no resolved page or no signature, 200 for an unknown product, else the loop. |
| `Webhooks.DeliverAppends` | src/moc/api/webhooks.py:285-296 | One delivery appends a first part of what is unseen, all of it when answered 200, claims exactly that, and leaves exactly the rest unseen. |
| `Webhooks.RetriesConverge` | src/moc/api/webhooks.py:142-152 | Posted again until 200, through any publish failures, a batch leaves each distinct unseen id on the stream once, in first-occurrence order; before that, a first part of them. |
| `Webhooks.FreshIsFirstOccurrences` | src/moc/api/webhooks.py:285-296 | What ends up queued has the distinct ids in order of first occurrence, and each queued message is the first with its id. |
| `Webhooks.MetaRetriesConverge` | src/moc/api/webhooks.py:228-296 | Any Meta delivery posted until 200 or given up, from any log and stream: 400 if and only if it is unreadable or names no page, 403 if and only if it is unsigned or no page is connected; what it queues is what customers wrote on connected pages, with the events' ids, senders and texts, in order, one per id, none claimed before; and it is answered 200 if and only if every such event's id is then claimed. |
| `Webhooks.LoopIsARun` | src/moc/api/webhooks.py:285-296 | The sequential loop is one run of the interleaved protocol, with the same log, stream and answer. |
| `ScriptEngine.IntentGoesToTheLastNodeListingIt` | src/moc/agent/script_engine.py:46-50 | The walk back over the document's nodes finds the last that lists the intent, and the fallback when none does. |
| `ScriptEngine.DecidesExactly` | src/moc/agent/script_engine.py:122-210 | The whole decision, for the node the turn lands on: the held node when an intent-less turn narrows or supplies a slot it declares, else the last node listing the intent, else the fallback. Which action, at which node, in which register, asking for which slots in which order, and holding which slots. |
| `ScriptEngine.AnswersExactlyWhenAllowed` | src/moc/agent/script_engine.py:143-210 | A turn is answered if and only if no human was asked for, the clarification limit is not reached, the node it lands on answers, every required slot and one of the alternatives is held, and retrieval is grounded and confident. |
| `ScriptEngine.MergedSlots` | src/moc/agent/state.py:117-131 | Slot by slot: what the turn says wins; a held slot stays unless it was taken back or the turn names the wider slot it sits inside. |
| `ScriptEngine.GateClosesExactly` | src/moc/agent/script_engine.py:172-196 | The evidence gate closes if and only if everything but evidence is there for an answer, and asks at the fallback node. |
| `ScriptEngine.AnswerHoldsItsSlots` | src/moc/agent/script_engine.py:160-210 | An answering decision is at an answering node whose required slots are all in the state that is kept. |
| `ScriptEngine.TurnKeeps` | src/moc/agent/script_engine.py:122-210 | Every turn keeps the counter under its ceiling, the cursor on the decided node, and the script, version and quoted unit as they were. |
| `ScriptEngine.ConversationKeeps` | src/moc/agent/script_engine.py:350-409 | The same for every turn of every conversation. |
| `ScriptEngine.PlayIsCounted` | src/moc/agent/script_engine.py:402-409 | Along a conversation each clarification adds one to the counter, anything else starts it again, and it never passes the ceiling. |
| `ScriptEngine.LoopIsBroken` | src/moc/agent/script_engine.py:146-152 | Clarifications are paid for by the other turns: c + clarified <= cap * (1 + others). |
| `ScriptEngine.ClarificationsAreBounded` | src/moc/agent/script_engine.py:86-91 | A conversation of n turns from the start holds at most n - floor(n / (cap + 1)) clarifications. |
| `ScriptEngine.BeginsAtTheEntry` | src/moc/agent/script_engine.py:86-93 | A conversation begins at the script's entry node, holding nothing. |
| `ScriptEngine.FillStep` | src/moc/agent/script_engine.py:291-346 | A turn that supplies a missing slot stays on the node, keeps what is held, and leaves strictly fewer slots missing. |
| `ScriptEngine.SlotFillingConverges` | src/moc/agent/script_engine.py:122-210 | With m required slots missing and room for m clarifications, a customer who keeps supplying one has at most m - i missing after i turns, so none after m; the same node asks each time for exactly what is left, and then answers when there is nothing else in the way. |
| `Router.Breaker.IsOpen` | src/moc/llm/router.py:61-70 | Open exactly within the reset window of a recorded opening; past it the breaker is closed and its count zeroed. |
| `Router.Breaker.RecordFailure` | src/moc/llm/router.py:76-79 | One more failure, opened at this instant when the count reaches the threshold. |
| `Router.ReplayStaysConsistent` | src/moc/llm/router.py:47-79 | Over any history the breaker is open exactly when its count has reached the threshold. |
| `Router.SuccessStartsOver` | src/moc/llm/router.py:72-79 | After a success, whatever came before, it takes a threshold of transient failures to have a call refused. |
| `Router.OutageIsBounded` | src/moc/llm/router.py:61-79 | In any success-free window of a sequential run, at most threshold * (floor(length / reset_seconds) + 1) calls fail transiently. |
| `Router.HalfOpenLetsThresholdThrough` | src/moc/llm/router.py:61-70 | After the reset window a burst of n failing calls lets min(n, threshold) through. |
| `Router.HalfOpenLetsThroughExactly` | src/moc/llm/router.py:61-79 | Among attempts made one after another within a window of the first past the reset window, none a success, each is let through if and only if fewer of those before it failed transiently than the threshold, or than one if that is lower. |
| `Router.OneTrialExactlyWhenItReopens` | src/moc/llm/router.py:64-70 | Over any such attempts at most one call goes through if and only if there is one attempt, or the trial call failed transiently and the threshold is at most one. |
| `Router.TrialErrorLetsAnotherThrough` | src/moc/llm/router.py:189-193 | At any threshold, a trial call that ends in a request error lets the next one through. |
| `Router.DegradedCopyIsFaithfulExactlyWithoutCacheWrites` | src/moc/llm/router.py:278-288 | The degraded copy differs from the completion in nothing but the flag if and only if there were no cache writes. |
| `Router.Eligible` | src/moc/llm/router.py:149-162 | The candidates are exactly those not excluded. |
| `Router.EligibleInOrder` | src/moc/llm/router.py:149-162 | Exclusion keeps the configured order of the others. |
| `Router.Router.Attempt` | src/moc/llm/router.py:169-196 | One candidate's attempt changes that provider's breaker, and no other, as its history says. |
| `Router.Router.Complete` | src/moc/llm/router.py:123-211 | The candidate loop over mutable breakers gives the reply and the breakers of the routing function. |
| `Router.PrimaryThenFailover` | src/moc/llm/router.py:149-211 | For a task: the primary decides the request if its breaker lets it through and it does not fail transiently; else the failover does, degraded; with the primary excluded the failover answers undegraded; when neither can, nobody is available. |
| `Router.FailoverIsFirstToSettle` | src/moc/llm/router.py:169-211 | The reply is that of the first eligible candidate whose breaker lets it through and that does not fail transiently, degraded exactly when it is not the first; nobody is available only if none settles. |
| `Router.CallsAtMostCandidates` | src/moc/llm/router.py:169-194 | One request calls at most one provider per candidate. |
| `Router.ExcludedIsUntouched` | src/moc/llm/router.py:149-162 | The excluded provider is never called and its breaker never changed. |
| `Router.RequestErrorStopsExactly` | src/moc/llm/router.py:169-194 | A request ends in a request error if and only if the first candidate to settle it, wherever it stands, meets one; then nobody after it is asked and no failure is counted on its breaker. |
| `Router.ServeIsReplay` | src/moc/llm/router.py:123-211 | Over any sequence of requests each breaker is its own provider's history replayed, and the failing calls made are those of that history. |
| `Router.RequestsDuringAnOutage` | src/moc/llm/router.py:61-79 | The outage bound over whole runs of requests through the router. |
| `Http.RequestWithRetries` | src/moc/llm/http.py:142-181 | The loop makes the posts of the specification and returns its result; each wait is the jittered backoff of its attempt. |
| `Http.CallIsSettledByItsLastPost` | src/moc/llm/http.py:121-181 | A call posts at most max_retries + 1 times, again if and only if the post failed in transit, or was answered 429, 500 or above, or with a spent budget; its result is what its last post makes of it, and it is unavailable if and only if every attempt was used and failed so. |
| `Http.WaitIsBounded` | src/moc/llm/http.py:157-177 | r retries wait between base * (2^r - 1) and that plus r jitters. |
| `Http.RequestCostIsBounded` | src/moc/llm/router.py:169-194 | When each candidate's outcome is what retrying its own responses comes to, one routed request costs at most candidates * (max_retries + 1) posts, and exactly max_retries + 1 for each call made when nobody was available. |
| `Chunker.SplittingKeepsInk` | src/moc/retrieval/chunker.py:80-91 | Splitting drops whitespace and nothing else, and yields no empty sentence. |
| `Chunker.CutsExactlyAtEnds` | src/moc/retrieval/chunker.py:79-92 | A text is cut after a character if and only if it is a terminator and whitespace follows. |
| `Chunker.JoinHead` | src/moc/retrieval/chunker.py:130-137 | A chunk's text is its sentences whole and in order, a blank apart. |
| `Chunker.OverlapTail` | src/moc/retrieval/chunker.py:140-161 | The backward scan returns the suffix its specification names. |
| `Chunker.OverlapIsLongestThatFits` | src/moc/retrieval/chunker.py:152-161 | With a positive budget the repeated tail is the longest suffix whose joined length fits it, or the last sentence alone. |
| `Chunker.PackSentences` | src/moc/retrieval/chunker.py:115-131 | The packing loop produces the spans of the greedy rule. |
| `Chunker.ChunkText` | src/moc/retrieval/chunker.py:94-137 | Chunks are numbered from zero, each the joined sentences of its span and their normalization. |
| `Chunker.ChunksReassemble` | src/moc/retrieval/chunker.py:115-137 | The chunks, each without what it repeats, are exactly the sentence list, and are no more than the sentences. |
| `Chunker.ChunkAt` | src/moc/retrieval/chunker.py:115-125 | Chunk i starts with a tail of chunk i - 1, goes on with at least one new sentence, and is filled by the greedy rule. |
| `Chunker.RepeatsWholeChunkExactly` | src/moc/retrieval/chunker.py:140-161 | A chunk repeats the whole of the one before it if and only if an overlap is configured and that one is a single sentence or fits the budget. |
| `Chunker.ChunksAreFull` | src/moc/retrieval/chunker.py:119-125 | A chunk of two or more new sentences joins to less than the target, and no chunk but the last had room for the next sentence. |
| `Chunker.OversizedSentence` | src/moc/retrieval/chunker.py:104-106 | A sentence over the target is the only new one of its chunk, and the whole chunk if and only if the chunk is first or no overlap is configured. |
| `Chunker.ChunksKeepTheText` | src/moc/retrieval/chunker.py:94-137 | From text to chunks only whitespace is dropped. |
| `Numerals.NormalizeDigits` | src/moc/arabic/numerals.py:168-171 | Digit normalization is character by character and preserves length. |
| `Numerals.PrintedFigureReadsBack` | src/moc/arabic/numerals.py:290-305 | Every whole number, printed with grouping commas and any trailing separators, is matched and parses as itself. |
| `Numerals.ParsesExactly` | src/moc/arabic/numerals.py:290-305 | Any groups of digits with any separators: all the digits together if the separators group and every group but the first is three digits; what stands before and after a single separator that marks decimals; else no number. |
| `Numerals.DecimalShifts` | src/moc/arabic/numerals.py:303-304 | A decimal is worth its digits, point aside, a power of ten apart. |
| `Quantities.Tokenize` | src/moc/arabic/numerals.py:244-263 | All tokens, and the positions of those that number an item at the start of a line's content. |
| `Quantities.MarkersAreExact` | src/moc/arabic/numerals.py:244-277 | A token is a list marker if and only if it is a few digits and a marker, after nothing but decoration on its line. |
| `Quantities.ExtractQuantities` | src/moc/arabic/numerals.py:185-221 | The scan over the tokens states the quantities of the specification, in order. |
| `Quantities.TokenStatesExactly` | src/moc/arabic/numerals.py:204-412 | In terms of the words around it: a token that holds a number states nothing if its neighbours set it aside (floors, places, forms, durations, a bare year), else one quantity, scaled by its unit phrase, with its kind, and hedged if an approximation ends before it. |
| `Quantities.TextStatesItsTokens` | src/moc/arabic/numerals.py:185-221 | A text states what its tokens state, one after another; one that numbers an item states nothing. |
| `Quantities.MatchIsTheLongest` | src/moc/arabic/numerals.py:153-162 | A token matches the number pattern if and only if it can be split into a body and a rest without digits, and then with the longest such body. |
| `Quantities.FigureInContext` | src/moc/arabic/numerals.py:185-221 | A printed whole figure anywhere in a text is extracted, between what the words before and after it state, as itself scaled by the unit words after it, if and only if its neighbours and the year rule do not set it aside. |
| `Quantities.LoneFigureReadsBackUnlessYear` | src/moc/arabic/numerals.py:352-371 | On its own it is extracted as itself unless it looks like a year; then, and only then, nothing is extracted. |
| `Quantities.FigureWithUnitIsScaled` | src/moc/arabic/numerals.py:308-332 | A printed figure followed by a unit word, anywhere in a text, is one quantity scaled by the unit, even where the bare figure would be dropped as a year, unless a floor, place or form word stands before it. |
| `Quantities.PrintedDecimalReadsBackExactly` | src/moc/agent/provenance.py:265-274 | A printed decimal reads back as itself if and only if its whole part needed no comma and it is not below a ten-thousandth, where it is printed with an exponent; otherwise it reads as no number. |
| `Guards.Redact` | src/moc/agent/guards.py:90-124 | The nested loop chooses the spans of the first-come rule, sorts them, and rebuilds the text around them; the labels found are theirs in order. |
| `Guards.RedactionIsExact` | src/moc/agent/guards.py:102-124 | What is cut is disjoint spans of the original, in order, each a match of some pattern under its label; every match of every pattern is cut, or overlaps a cut match that comes before it in the configured order; and putting the pieces back restores the original. |
| `Guards.CutsAreReplaced` | src/moc/agent/guards.py:113-124 | Where each cut was stands the placeholder of its label, followed by the original up to the next cut. |
| `Guards.LabelsAreTags` | src/moc/agent/guards.py:113-124 | What is reported found is the label of each cut, in order. |
| `Guards.NoMatchSurvivesWhole` | src/moc/agent/guards.py:102-117 | When no pattern matches the empty text, every match of every pattern loses at least one of its characters. |
| `Guards.CollectSources` | src/moc/agent/guards.py:199-214 | The pool is the figures of the passages and of the script constants. |
| `Guards.PoolIsSupport` | src/moc/agent/guards.py:199-219 | A figure is in the pool if and only if some passage or constant states it. |
| `Guards.GateIsExact` | src/moc/agent/guards.py:154-196 | The gate passes if and only if every figure of the reply is stated by a passage or constant and none is hedged; the orphans are the figures without a source and the hedged those with one, all and in order; none is reported under both. |
| `Provenance.InRow` | src/moc/agent/provenance.py:203-213 | The first row with a field of that value, and the first such field. |
| `Provenance.InComputation` | src/moc/agent/provenance.py:231-238 | The same for tool outputs. |
| `Provenance.Find` | src/moc/agent/provenance.py:277-289 | The first passage stating the value. |
| `Provenance.ExcerptFor` | src/moc/agent/provenance.py:292-305 | The first sentence of the passage stating the value, else the passage. |
| `Provenance.SentencesCover` | src/moc/agent/provenance.py:308-317 | The sentences concatenate to the text; each ends at the first ending character in it, and only the last may have none. |
| `Provenance.ExcerptIsVerbatimExactlyInLatinDigits` | src/moc/agent/provenance.py:292-317 | The excerpt is the stretch of the passage the stating sentence was made from, in Latin digits: the passage's own words if and only if that stretch holds no other digits; with no stating sentence it is the passage itself. |
| `Provenance.ExcerptIsAChunkSentenceExactly` | src/moc/agent/provenance.py:292-317 | The sentence shown lies within one of the chunker's for the same text, and is that one, trimmed, if and only if only whitespace stands beside it there. |
| `Provenance.DecimalIsCutInTwo` | src/moc/agent/provenance.py:308-317 | One that is not: a figure read in the first part of 6.5 is shown as the fragment before the decimals. |
| `Provenance.TraceFigures` | src/moc/agent/provenance.py:136-200 | Each figure is traced to a row, else a computation, else a passage, else a constant, the first of its kind, else nowhere. |
| `Provenance.GroundedExactlyWhenSupported` | src/moc/agent/provenance.py:159-200 | A figure is marked grounded if and only if a row, a computation, or the gate's pool holds it. |
| `Provenance.TracerRefinesGate` | src/moc/agent/provenance.py:320-328 | Without rows or computations the gate's orphans are the ungrounded traced values, in order. |
| `Provenance.PassedReplyTracesCompletely` | src/moc/agent/provenance.py:159-200 | A reply that passes the gate is traced without a figure left over. |
| `FigureAudit.AuditIsExact` | src/moc/agent/figure_audit.py:94-137 | The audit fails if and only if the auditor answered a well-formed audit with an unsupported claim; exactly those are reported, all are counted, and the call is kept; it is degraded if and only if a reply with figures got no such audit. |
| `FigureAudit.QuotationsStayInOnePieceExactly` | src/moc/agent/figure_audit.py:130-152 | Over all material, an accepted claim is borne out by a single passage or constant if and only if its quotation neither starts nor ends with a line break nor holds an empty line. |
| `FigureAudit.QuotationAcrossTwoPieces` | src/moc/agent/figure_audit.py:130-152 | One that is not: a figure from one passage labelled from the next is accepted. |
| `FigureAudit.FigureIsANumberExactlyInside` | src/moc/agent/figure_audit.py:140-152 | Over all material, an accepted claim's figure stands there as a number of its own if and only if its quotation has it standing so with something on either side. |
| `FigureAudit.PartOfALongerFigureIsAccepted` | src/moc/agent/figure_audit.py:140-152 | One that does not: a claim about 100 is accepted from a passage that states 1000 only. |
| `FigureAudit.VouchesExactlyForListedFigures` | src/moc/agent/figure_audit.py:94-137 | A passing, undegraded audit vouches for a figure if and only if the auditor listed a claim about it; so a passing verdict vouches for every figure if and only if a well-formed audit came and, unless it holds an unsupported claim, covers them all. |
| `FigureAudit.OmittedFigureGoesUnvouched` | src/moc/agent/figure_audit.py:130-137 | A reply of two figures of which the auditor lists one passes, undegraded, with the other unvouched for. |
| `Orchestrator.Orchestrator.Resolve` | src/moc/agent/orchestrator.py:486-581 | From the decision to the scripted, discarded or delivered reply, with its evidence and the ledger rows it adds. |
| `Orchestrator.Orchestrator.Handle` | src/moc/agent/orchestrator.py:270-428 | The whole turn, on the redacted text only: result, evidence and ledger rows are those of the specification, or an error is raised. |
| `Orchestrator.Orchestrator.MeterSearches` | src/moc/agent/orchestrator.py:388-397 | One ledger row for each search that spent embedding tokens. |
| `TurnSafety.TakesInExactly` | src/moc/agent/orchestrator.py:313-406 | For everything the collaborators may answer: when a turn is understood, which failure is heard otherwise, and that it then knows what they answered: grounded if and only if the search it reads found something, with that search's confidence. |
| `TurnSafety.AnswersExactlyWhenEarned` | src/moc/agent/orchestrator.py:486-581 | Whatever the collaborators answer, the result is an answer if and only if the message is understood, the node it lands on can answer it, the search it reads found something it is sure enough of, the model said something, every figure in it is stated by that material unhedged, and the audit passed. |
| `TurnSafety.NoEvidenceNoAnswer` | src/moc/agent/orchestrator.py:400-406 | A turn that would be answered but for a search that found nothing, or nothing sure enough, is a clarification at the fallback node in the low-confidence wording, and the model is not asked. |
| `TurnSafety.AnswersAreSafe` | src/moc/agent/orchestrator.py:564-581 | An answer is the composed text over the passages read, its figures supported, both gates passed, every slot its node requires held, and the referral, if there is one, authorised beside it. |
| `TurnSafety.OtherTurnsAreScripted` | src/moc/agent/orchestrator.py:732-773 | Every other result is, word for word, the tenant's wording for what happened, and lists it as authorised. |
| `TurnSafety.FailuresHandOff` | src/moc/agent/orchestrator.py:746-773 | A turn that was to be answered and was not is handed off; one that was not to be answered keeps the engine's action; the outage flag is set if and only if understanding or composition met a total outage. |
| `TurnSafety.ResultsAreAccountedFor` | src/moc/agent/orchestrator.py:486-581 | What else every result says: what was redacted, the passages and constants read, the register decided, the two verdicts on what the model said, and whether it is degraded. |
| `TurnSafety.SessionIsSafe` | src/moc/agent/orchestrator.py:270-428 | Over a whole conversation every reply is an earned answer or the tenant's wording for what happened, and the engine accepts every state reached. |
| `TurnSafety.UnaskedModelsHaveNoSay` | src/moc/agent/orchestrator.py:497-505 | On a turn the engine does not answer, neither result nor ledger depends on what the model or the auditor would say. |
| `TurnSafety.RaisesExactly` | src/moc/agent/orchestrator.py:313-428 | The exact turns that end in an error, in terms of what the collaborators answer: an error other than an outage from the search or the extraction that is heard, any failure of the repeated search, another version, or a composer that fails otherwise than by an outage. |
| `TurnSafety.LedgerBalances` | src/moc/agent/orchestrator.py:301-427 | A turn with a reply records one message in, what it spent, one message out; the model calls are the extraction, the composition and the audit, each once if it answered, the embedding calls those of the searches that spent tokens, with their models; every row names the turn's channel. |
| `TurnSafety.ConversationIsKept` | src/moc/agent/orchestrator.py:430-482 | A turn that was not understood leaves the conversation as it was and hands off; every other keeps the state the engine decided. |
| `TurnSafety.EvidenceIsComplete` | src/moc/agent/orchestrator.py:886-926 | When the sources are the passages, every figure of a delivered reply is traced to a source. |
| `EmbeddingCache.KeysAreDistinct` | src/moc/retrieval/embedding_cache.py:92-96 | Two texts share a key only if text, model and width are all the same, for models named without a NUL. |
| `EmbeddingCache.EmbeddingCache.Embed` | src/moc/retrieval/embedding_cache.py:59-90 | Reading, sending and keeping give the answer, the texts sent and the files of the specification. |
| `EmbeddingCache.EmbeddingCache.Look` | src/moc/retrieval/embedding_cache.py:73-74 | The distinct texts are divided into what the store holds and what is missing, unless a file fails the reader. |
| `EmbeddingCache.EmbeddingCache.Keep` | src/moc/retrieval/embedding_cache.py:76-81 | Each fresh vector is kept in memory and on disk under its own key. |
| `EmbeddingCache.CacheIsTransparent` | src/moc/retrieval/embedding_cache.py:82-90 | Over a store whose readable entries are correct, whatever else it holds, the answer is the embedder's vector for each text in order, and the store stays correct. |
| `EmbeddingCache.SendsEachUncachedTextOnce` | src/moc/retrieval/embedding_cache.py:73-77 | Exactly the uncached texts are sent, each once; a full hit bills zero. |
| `EmbeddingCache.RepeatIsFreeExactlyAtWidth` | src/moc/retrieval/embedding_cache.py:98-107 | An immediate repeat sends nothing and bills zero if and only if every fresh vector had the cache's width. |
| `EmbeddingCache.OtherShapesAreUntouched` | src/moc/retrieval/embedding_cache.py:92-96 | A cache of another model or width reads what it read before. |
| `EmbeddingCache.FailsExactlyOnUncaughtDamage` | src/moc/retrieval/embedding_cache.py:98-107 | A run's reads fail it if and only if some text's file is refused with an error the reader does not catch or holds a vector without a length; all other damage is a miss. |
| `Scripts.ScriptStore.Save` | src/moc/agent/scripts.py:65-101 | The one draft is rewritten or a next version opened, and no other script's history changes. |
| `Scripts.ScriptStore.Publish` | src/moc/agent/scripts.py:128-165 | The draft is published as it stands, or NoDraft is reported and nothing changes. |
| `Scripts.ScriptStore.Current` | src/moc/agent/scripts.py:167-182 | The newest published version of the history. |
| `Scripts.ScriptStore.AtVersion` | src/moc/agent/scripts.py:184-200 | Version v of the history, draft or not, or nothing. |
| `Scripts.SaveRefines` | src/moc/agent/scripts.py:204-224 | The queries and updates over all tenants' rows do to each script's history exactly what saving a draft means. |
| `Scripts.PublishRefines` | src/moc/agent/scripts.py:131-161 | The same for publishing, which succeeds if and only if the history ends in a draft. |
| `Scripts.RunKeepsDiscipline` | src/moc/agent/scripts.py:215-224 | Over any run of saves and publishes a script's versions are exactly 1..n and only n may be a draft. |
| `Scripts.PublishedIsForever` | src/moc/agent/scripts.py:139-142 | A published version keeps its body in every continuation. |
| `Scripts.CurrentNeverGoesBack` | src/moc/agent/scripts.py:167-182 | The current version never decreases and never disappears. |
| `Scripts.KeptExactlyWhenPublished` | src/moc/agent/scripts.py:74-81 | A stored version is the same in every continuation if and only if it is published. |
| `Scripts.ScriptResolver.Current` | src/moc/agent/scripts.py:272-281 | The newest published body, cached afresh, or the configuration file. |
| `Scripts.ScriptResolver.At` | src/moc/agent/scripts.py:283-300 | The cached script, else the stored one, which is then cached, else none. |
| `Scripts.TruthfulAnswers` | src/moc/agent/scripts.py:283-309 | From a cache of published bodies the resolver answers what is stored, whatever was asked before. |
| `Scripts.CacheStaysTruthful` | src/moc/agent/scripts.py:261-264 | The cache holds only published bodies, as stored, over any run in which no draft is asked for by version. |
| `Scripts.EventsFollow` | src/moc/agent/scripts.py:272-300 | A run is its events in order; what is cached is answered without asking the store. |
| `Scripts.AskIsSafeExactlyOffDrafts` | src/moc/agent/scripts.py:283-300 | Asking for a version can never make a later answer wrong if and only if the version is absent or published. |
| `Pinning.PickScript` | src/moc/workers/inbound.py:188-209 | The worker's choice between the current and the pinned script. |
| `Pinning.ConversationsKeepTheirScript` | src/moc/workers/inbound.py:200-209 | Over any run of edits to any scripts and messages of any customers, a conversation begun on a published script is served to its end by that document and never refused, and one begun on the file until its tenant publishes, if what its tenant publishes of that script carries its own number. |
| `Pinning.LaterMessagesRunTheFirstsScript` | src/moc/workers/inbound.py:188-209 | A conversation's first message runs the tenant's newest published script, or the file; after any run of edits and messages its next runs the same document: always when that was published, and when it was the file, until the tenant publishes. |
| `Pinning.MessagesTouchTheirOwn` | src/moc/workers/inbound.py:188-209 | A message changes the resolver's cache and, when it is a customer's first, that customer's pin, and nothing else. |
| `Pinning.HappeningsFollow` | src/moc/workers/inbound.py:188-209 | A run is its edits and messages one after another. |
| `Pinning.PublishMovesExactlyOnAReusedNumber` | src/moc/workers/inbound.py:204-209 | A publish leaves a conversation pinned to a published version on its document if and only if the new document carries another number or is the same document. |
| `Pinning.FileConversationsMoveOnPublish` | src/moc/agent/scripts.py:272-281 | A conversation begun on the configuration file runs, once anything is published, the tenant's version of the same number, a draft included, and is refused if and only if there is none or it is numbered otherwise inside. |
| `Pinning.FileNumberStaysFresh` | src/moc/agent/scripts.py:261-300 | With configuration files numbered 1, no run leaves a draft cached under the file's number. |

## Left out

- Signature and credential checks, HTTP routing, vendor clients and their payloads: a delivery is already parsed, and whether it was signed is a parameter.
- The early returns of the WhatsApp, Telegram and email routes before the claim: per-vendor parsing, with no effect on the log or the stream.
- Stream trimming (`maxlen`) and the encoding of messages: the stream is an unbounded append log.
- WebhookProtocol.NoSilentLoss: says nothing once a handler has died holding the id, which is what WebhookProtocol.StuckClaimIsLost is about.
- Router.OutageIsBounded: concurrent calls may all pass a closed breaker before the first failure is recorded, so the bound is for sequential runs.
- Guards.NoMatchSurvivesWhole: a pattern that matches the empty text can shield a longer match that starts at the same place, so empty matches are excluded there.
- Guards.Redact: among empty matches at one position the order of the labels is that of the sort used here.
- Orchestrator.Orchestrator.Handle: leaves out timings and the titles carried beside the passages; what a raised turn wrote to the ledger goes with the caller's transaction.
- Reply wording, the choice between named slots, offers and the generic sentence, and the composition prompt: functions of the decision and the language, left as parameters.
- Entity and type-substitution checks of `guards.py` and the evals package: comprehensions and folds over the same notions.
- Scripts.ScriptStore.Publish: does not model the audit row written in the same transaction, nor the preview.
- Pinning.ConversationsKeepTheirScript: one resolver serves every message; with several, each with a cache of its own, a draft answered by number (Scripts.AskIsSafeExactlyOffDrafts) could stay in one of them.
- EmbeddingCache.EmbeddingCache.Embed: writes are whole; the temporary file and the rename that make them so are not modelled, nor is a batch whose vector count differs from its texts.
- Handoff and conversation stores, the outbound worker, settings, the console and migrations: thin wrappers over SQL, vendors or UI.
