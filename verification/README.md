# Nadir: a verified model of the request path

Nadir is a proxy for language models. This project models the small in-memory machines on its
request path, and a few of its text and ranking algorithms, and proves what they keep over every
run. Code that changes state is modelled by classes and loops and proved equal to a function of
the old state; the theorems are then about that function.

Time is a whole number of nanoseconds (days, for the budget) that the caller supplies and that
does not go back. Floats are reals. SHA-256 is injective, so a cache key is the text that is
hashed. A provider is a given reply, or a given finite list of chunks with a given end. Texts are
sequences of Unicode scalar values; where bytes matter, they are encoded as UTF-8 (RFC 3629).

## What is proved, by component

- **Dispatch** (`Dispatch`, `Scan`, `Breaker`, `Recovery`, `StreamShape`, `Server`). Both fallback loops mutate the
  health records and cooldowns they consult, yet over a chain without repeats they do what a scan
  over the availabilities on entry says. Without repeats is exactly what it takes. Over any
  sequence of dispatches the failure count is the trailing run of failures, calls keep their
  distance from failures, and a position that is reached calls its model exactly when they let it.
  Every stream obeys one output grammar.
- **One request, end to end** (`Handler`, `Journal`). Budget gate, prompt cache, routing, dispatch and
  booking in one method. Every reply from the cache is the text some earlier request for the same
  model and messages was answered with, and an answer in reach is given again. A request is refused
  exactly when the costs before it reach a limit.
- **Prompt cache** (`LinkedList`, `PromptCache`, `Lru`). Real heap nodes in a ring, with a ghost
  sequence. Closed form of the recency list, stack inclusion, balanced counters; what is found, and for how long,
  with a time to live.
- **Logger pool** (`LoggerPool`, `LoggerClose`). All interleavings of submitters, workers and `Close`.
- **User limiter** (`UserLimit`). Pruned buckets decide as the whole history would.
- **Tokenizer** (`Tokenizer`). One round trip across loading, splitting, matching and encoding.
- **Budget** (`Budget`). Ledger, gate, alerts, and the overshoot bound with requests in flight.
- **Routing and pinning** (`Router`, `Session`). Chains without repeats; sticky conversations.
- **Skill ranking** (`StableSort`, `Vectors`, `Ordering`, `Semantic`, `Fused`, `Cascade`). The nearest skill wins.
- **Event stream** (`Sse`). What the stream writer emits, read back by the provider client.
- **Compaction** (`Text`, `Optimize`). Idempotent, keeps every word, copies before it writes.

## Where the code is not what one might expect

Each is proved as it is, with the exact condition where there is one.

- A chain that names a model twice can be cut off by its own fifth failure, batch or streaming
  (`Dispatch.ScanNeedsDistinct`).
- A stream that ends before its first chunk is recorded as a failure but leaves the standing error
  as it was, so a chain of empty streams reports that it had no models
  (`Scan.NoModelsIff`, `Scan.DryStreamHasNoModels`).
- A session pin can undo a vision swap (`Router.VisionUndoneIff`, `Router.ReasoningUndoesVision`).
- The session key covers the system messages before the first user message, so it changes while
  there is no user message yet (`Session.KeyIsStable`).
- `dropped` is incremented without a lock, so it is right exactly if no two drops overlapped; and
  `Close` is sure to deliver what is queued exactly if nothing is queued (`LoggerClose.CounterIsExactIff`,
  `LoggerClose.CloseDeliversIff`).
- Matching is greedy and never backs off, so a word that vocabulary pieces do make up can still be
  unknown, although the comment speaks of words that cannot be decomposed (`Tokenizer.KnownIff`,
  `Tokenizer.GreedyIsCompleteIff`).
- The ensemble identity needs unit vectors on both sides; a prompt outside the TF-IDF vocabulary
  has a zero one (`Vectors.IdentityIff`, `Vectors.ZeroSideBreaksIdentity`).
- Ranking skips the magnitude divisions, and the comment says that the order is preserved without
  normalised embeddings. For the prompt nothing is needed (`Semantic.NearestWins`), but two prototypes
  keep their order exactly if they are equally long or opposed (`Ordering.KeepsOrderIff`).
- The documented maximum of the fused confidence needs distinct skill names, which the constructor
  does not check (`Fused.FusedMaximumIff`).
- The cascade does not consult its second stage below the threshold (`Cascade.Route`), and with a
  shortlist of one it sees no runner-up (`Cascade.CascadeRefinesPrimary`).
- Punctuation after the closing quote of a reply keeps that quote on the name
  (`Cascade.StopOutsideQuotes`).
- An event stream cut off without a connection error ends like a whole one
  (`Sse.LossIsUnnoticedIff`, `Sse.LostChunks`).
- A streamed request never reaches the budget, and a fallback's answer is charged at the price of
  the model it stood in for (`Handler.StreamsAreFree`, `Handler.AnswersArePricedAsDecided`).

## Model

| member | source | states |
|---|---|---|
| Dispatch.WalkIsScan | internal/proxy/fallback.go:15-64 | over a chain without repeats, either loop has the outcome and the events of a pure scan over the availabilities on entry: the first position that ends the walk decides, else the last error left standing |
| Scan.FirstEndDecides | internal/proxy/fallback.go:17-63 | either mode, over a chain without repeats, in terms of availability, client and provider behaviour only: the first position that ends a dispatch decides what it comes to; if none does, the last error left is reported, or that there were no models if none was left |
| Scan.FailureIsRecorded | types/errors.go:70-81 | a failed call is recorded under the kind the provider gave it, in either mode, and the next model is tried if and only if that is a rate limit, server error, timeout or network error and nothing was sent yet |
| Scan.NoModelsIff | internal/proxy/stream.go:76-79 | "no models" is reported if and only if every position of the chain is called and its stream is empty, provided no provider says so itself |
| Scan.DryStreamHasNoModels | internal/proxy/stream.go:112-116 | one healthy model with a client and an empty stream, for which that is reported |
| Dispatch.ScanNeedsDistinct | internal/proxy/fallback.go:17-62 | in either mode the loop is that scan for all records and all environments if and only if the chain repeats no model |
| Dispatch.RepeatBreaksScan | health/health.go:53-60 | for either mode and any chain with a repeat: records and provider behaviour under which loop and scan part |
| Dispatch.TurnLeavesOthers | internal/proxy/fallback.go:66-76 | a turn at one model leaves everything that decides about any other model as it was |
| Breaker.RunsAreSpaced | health/health.go:45-87 | over any batch and streaming dispatches from a fresh server: the failure count is the length of the trailing failure run; from five on, each call comes more than the cooldown after the last failure; after a rate-limit failure a call waits out the limiter's cooldown |
| Recovery.CallsIff | internal/proxy/fallback.go:17-52 | in any run of dispatches from a fresh server, a dispatch that reaches a position whose model has a client calls it if and only if fewer than five results in a row were failures or all failures are more than 30 s old, and with a limiter every rate limit was recorded at least 30 s ago: a model that tripped comes back |
| Recovery.ReachedIsPrefix | internal/proxy/fallback.go:15-62 | what a dispatch did up to a position, and then at it, is the beginning of all it does |
| Breaker.WalkKeepsInv | ratelimit/model.go:22-46 | one dispatch, either mode, keeps the books in step with the trace and every call at its distance |
| StreamShape.StreamRuns | internal/proxy/stream.go:34-117 | every streaming run writes all chunks of one provider in order and one end, or those and an error and an end, or just an error and an end; no provider is called after a write; every call is recorded once, as a success exactly if all its chunks were delivered and else as a failure; opens match closes, one for one |
| StreamShape.CallsFollowChain | internal/proxy/fallback.go:17-76 | in either mode every call gets exactly one recorded result, in order: a success for the position the outcome came from, if it succeeded, and failures for all others; over a chain without repeats no model is called twice |
| Server.Server.CompleteWithFallback | internal/proxy/fallback.go:15-64 | the mutating batch loop returns the walk's outcome and leaves the walk's records, cooldowns and events |
| Server.Server.CompleteAt | internal/proxy/fallback.go:22-61 | one position: checks, call, result recorded, model name rewritten past the first position |
| Server.Server.RecordFailure | internal/proxy/fallback.go:66-76 | the failure goes to the health record, and to the limiter too if it was a rate limit |
| Server.Server.PickProvider | internal/proxy/server.go:398-415 | the mapped provider or the default; an authentication error if there is no client |
| Server.Server.StreamWithFallback | internal/proxy/stream.go:20-117 | the mutating streaming loop leaves the walk's records, cooldowns, events and frames; a writer that cannot flush gets a 500 and nothing else happens |
| Server.Server.StreamAt | internal/proxy/stream.go:36-109 | one position of the streaming loop; every iterator it opened is closed once |
| Server.Server.Consume | internal/proxy/stream.go:67-109 | an open stream: the first chunk commits, a failed or empty probe gives up |
| Server.Server.Relay | internal/proxy/stream.go:88-109 | after the first chunk: the rest of the stream, its end, and its result |
| Server.Server.CopyChunks | internal/proxy/stream.go:89-102 | writes the chunks in order until the iterator ends |
| Server.Server.GiveUp | internal/proxy/stream.go:69-86 | an unstarted stream is closed and recorded; an empty one leaves no error |
| Server.Server.WriteStreamError | internal/proxy/stream.go:128-138 | an error frame and an end frame |
| Handler.Handler.Handle | internal/proxy/server.go:244-322 | one batch request leaves and returns exactly what the pure request function says, whichever of its exits it takes; the chain it dispatches is the router's decision on it, pins and health order included; what that comes to over runs is said by the rows of Handler and Journal below |
| Handler.Handler.HandleStream | internal/proxy/server.go:289-296 | a streaming request passes the same gate and router, not the cache, writes the walk's frames, and books a reply of no tokens |
| Handler.Handler.Gate | internal/proxy/server.go:258-264 | the ledger is rolled to the day, and the request passes if and only if the sums recorded so far, that day and that month, leave room under the limits |
| Handler.Handler.Charge | internal/proxy/server.go:329-341 | a positive estimate is recorded, and nothing else |
| Handler.HandledIsScan | internal/proxy/server.go:258-319 | a request refused or answered from the cache touches no model; any other gets what the scan over the books it found says |
| Handler.RejectionsReport | internal/proxy/server.go:300-313 | a failed dispatch is reported as 401, 400 or 429 exactly for the kinds these stand for, and else as 502 |
| Handler.CachedRepliesAreAnswers | internal/proxy/server.go:266-319 | over any run from an empty cache, a reply from the cache is the text an earlier request for the same model and messages was answered with |
| Journal.AnswersAreKept | internal/proxy/server.go:266-319 | over any run from an empty cache, once a request was answered, a later one for the same model and messages that passes the gate gets that answer from the cache, with no model called, nothing booked and no pin moved, if it is no older than the time to live and fewer other keys than the cache has room for were asked for since |
| Journal.CacheIsRun | internal/proxy/server.go:266-319 | the cache a run of requests leaves is that of a lookup for every request past the gate and a store for every answer |
| Journal.RefusedIff | internal/proxy/server.go:258-341 | over any run from a fresh ledger, a request with messages is refused if and only if what the requests before it cost, that day or that month, has reached a limit that is set |
| Journal.LedgerIsRun | internal/proxy/server.go:258-341 | the ledger a run of requests leaves is that of a gate for every request and a booking for every dispatch |
| Handler.StreamsAreFree | internal/proxy/server.go:289-291 | where no tokens cost nothing (`modelmeta/modelmeta.go:80-86`), over any run of streamed requests the total spent stays what it was, and if nothing else was spent no limit stops one |
| Handler.AnswersArePricedAsDecided | internal/proxy/server.go:329-341 | an answer adds its usage at the price of the model decided on, also where a fallback gave it; nothing but a dispatch adds anything |
| Health.Tracker.RecordFailure | health/health.go:53-60 | one more failure, its kind and its instant, for this model only |
| Health.Tracker.RecordSuccess | health/health.go:45-51 | the count is reset, for this model only |
| Health.Tracker.Available | health/health.go:76-87 | true if and only if fewer than five failures stand, or the last is more than 30 s old |
| Health.Tracker.Order | health/health.go:65-74 | a copy, stably sorted by score |
| Health.OrderKeepsChain | health/health.go:62-74 | nothing lost, nothing repeated; models without a failure in the last 30 s keep their order and come before the others, and those go by the number of failures |
| ModelLimit.Model.Check | ratelimit/model.go:22-35 | denied exactly while cooling down, with the time left; an expired entry is dropped |
| ModelLimit.Model.Record | ratelimit/model.go:39-46 | the cooldown ends after the given wait, or the default |
| ModelLimit.CoolingIsLatestRecord | ratelimit/model.go:22-46 | over any run, a model cools down exactly as long as its latest record said: dropping entries lazily is unobservable |
| Router.Router.Route | router/router.go:42-118 | no decision, and nothing pinned, exactly if the classifier is asked and fails; otherwise the pick, pinned by the session, with its provider and what was measured; model and fallback chain together repeat nothing; the chain is the usable sources in order, stably sorted by health |
| Router.Router.PickModel | router/router.go:46-88 | requested or classified model, then the agentic, reasoning and vision modifiers |
| Router.ExtractMeta | router/router.go:271-297 | the loop finds exactly what some message of the right role shows |
| Router.MetaGrows | router/router.go:271-297 | what a conversation has once shown, it goes on showing |
| Router.Router.BuildChain | router/router.go:203-231 | each usable source once, by first appearance, without the primary |
| Router.PickMeans | router/router.go:68-88 | the modifiers never lower the rank; an agentic request ends below the complex tier exactly if it asked for the complex model under a lower tier and goes on to no reasoning model; reasoning and vision do what they say |
| Router.PlainPick | router/router.go:46-66 | a request that shows nothing gets the model it names, through the aliases, or the one for the tier it was classified into |
| Router.ModifiersTell | router/router.go:62-88 | the reported modifiers are there exactly when, or only when, the decision was made that way |
| Router.TiersHaveTheirModels | router/router.go:120-153 | with four different models configured, every tier has its own, and asking for a model by name gives its tier |
| Router.LadderDescends | router/router.go:217-225 | behind the configured chain come the models for the tiers Mid and Simple that rank below the request's, the higher first |
| Router.PinCanUndoVision | router/router.go:81-98 | for any pins, a request with images gets a model without vision if and only if the pin is at least as high and has none |
| Router.VisionUndoneIff | router/router.go:81-98 | over any run, a request with images gets a model without vision if and only if the first request of the highest rank in its conversation is an earlier one that got such a model |
| Router.ReasoningUndoesVision | router/router.go:76-98 | over any run, after a text turn that wants reasoning, the first of its conversation at the top rank, every later turn of that conversation gets the reasoning model, images or not |
| Router.VisionUndoneExample | router/router.go:81-98 | a growing conversation, a question to reason about and then an image, whose image turn gets a model that does not see |
| Router.DecisionsAreAnswers | router/router.go:90-98 | the decisions a session comes to, request by request from an empty cache, are the answers all of this is about |
| Session.Session.UpgradeIfHigher | cache/session.go:53-67 | the pin moves exactly when the tier ranks strictly higher |
| Session.SessionKey | cache/session.go:86-100 | the loop hashes the system messages up to the first user message, and that |
| Session.KeyIsStable | cache/session.go:86-100 | appended messages leave the key alone if and only if there was a user message already, or none of them counts |
| Session.KeySeparates | cache/session.go:86-100 | two conversations share a key if and only if their pinning messages are the same |
| Session.AnswerIsFirstBest | cache/session.go:53-67 | over any mix of conversations, a request gets the first pick of the highest rank its conversation has seen, itself included |
| Session.RanksAscend | cache/session.go:69-84 | free, simple, mid, complex, reasoning ascend strictly, and any other tier ranks as the lowest |
| Session.ConversationSticks | router/router.go:90-98 | later turns of a conversation never rank lower, and change the answer only together with a strictly higher rank |
| LinkedList.List.PushFront | cache/prompt.go:83-83 | a fresh element at the front of the ring |
| LinkedList.List.MoveToFront | cache/prompt.go:65-65 | the element at the front, the rest in order, all links consistent |
| LinkedList.List.Unlink | cache/prompt.go:114-118 | the ring without that element, all links consistent |
| PromptCache.Prompt.Get | cache/prompt.go:50-68 | a hit if and only if the map knows the key and now is not past the entry's expiry; a miss, an expiry counted as a miss, or a hit moved to the front; map and list stay in step |
| PromptCache.Prompt.Put | cache/prompt.go:70-93 | a refresh in place or a new front entry, then eviction from the back down to the size |
| PromptCache.Prompt.RemoveLocked | cache/prompt.go:114-118 | out of map and list together |
| PromptCache.Prompt.EvictOverflow | cache/prompt.go:87-92 | exactly the least recent entries go, one count each |
| PromptCache.Prompt.Stats | cache/prompt.go:95-105 | size and counters as they are |
| PromptCache.HashKeySeparates | cache/prompt.go:120-127 | two lookups share a key if and only if model and messages are the same |
| Lru.RunBounded | cache/prompt.go:50-93 | over any run keys stay distinct and the size within its bound |
| Lru.BooksBalance | cache/prompt.go:50-118 | hits and misses add up to the lookups; new entries are present, evicted or timed out |
| Lru.HitsAreHonest | cache/prompt.go:50-93 | a hit is the latest put under its key, no older than the time to live |
| Lru.HitIffInTime | cache/prompt.go:50-93 | with any time to live, a key that was stored, and after which fewer than maxSize other keys were used, is found if and only if the time to live has not run out since, with the response stored last |
| Lru.LruClosedForm | cache/prompt.go:50-93 | without a time to live the list is the maxSize most recently used distinct keys, in order |
| Lru.RecencyIsRecency | cache/prompt.go:50-93 | the recursive recency list is the list of distinct keys by latest use, as defined without recursion |
| Lru.RecencyUnique | cache/prompt.go:50-93 | only one list meets that definition |
| Lru.HitIffRecent | cache/prompt.go:50-68 | a request hits if and only if its key is among the maxSize most recently used, that is, was asked for before and fewer than maxSize distinct keys came since |
| Lru.LargerCacheIncludes | cache/prompt.go:50-93 | on one trace a larger cache's list extends a smaller one's, and it hits no less often |
| LoggerPool.PoolRuns | internal/proxy/worker.go:47-75 | in every reachable state of every interleaving: submitted = dropped + queued + in hand + done, dequeued then queued is the accepted order, the queue keeps its capacity, each finished entry went to every store once |
| LoggerPool.StepKeepsInv | internal/proxy/worker.go:47-83 | every step of submitters, workers and closer keeps the pool's invariant |
| LoggerPool.SubmitDropsIffFull | internal/proxy/worker.go:47-75 | in every state of a run until Close begins: an entry is accepted if and only if the channel has room and dropped if and only if it is full, no worker has left, and while anything is queued some worker can go on |
| LoggerClose.SerialDropsAreCounted | internal/proxy/worker.go:50-51 | drops that do not overlap are counted exactly, the one in flight included |
| LoggerClose.CounterIsExactIff | internal/proxy/worker.go:50-51 | over any run, whenever no write is in flight, the counter is right if and only if no drop started between another's read and write; it never overcounts |
| LoggerClose.OverlappingDropsCanUndercount | internal/proxy/worker.go:50-51 | from a fresh pool, a run in which two drops count as one |
| LoggerClose.ClosingIsNeverStuck | internal/proxy/worker.go:77-83 | until Close returns some step is possible that takes nothing from the queue |
| LoggerClose.CloseTerminates | internal/proxy/worker.go:58-83 | once Close has begun a measure bounds every run, and a run that can go no further has returned |
| LoggerClose.ReturnLeavesOnlyTheQueue | internal/proxy/worker.go:77-83 | when Close returns, every entry taken went to every store, and all accepted ones did if and only if the queue is empty |
| LoggerClose.CloseDeliversIff | internal/proxy/worker.go:60-66 | from any state of a Close under way: every run to its return empties the queue if and only if the queue is already empty |
| LoggerClose.CloseCanLeaveEntries | internal/proxy/worker.go:62-63 | from a fresh pool, a run in which Close returns with an entry still queued |
| UserLimit.User.Check | ratelimit/user.go:38-57 | denies exactly when the full admission history has limit admissions in the closed window, with the exact time to retry; every history stays spread |
| UserLimit.WindowNeverOverfull | ratelimit/user.go:38-57 | no closed interval as long as the window ever holds more than limit admissions |
| UserLimit.AdmissionsSpread | ratelimit/user.go:38-57 | any limit + 1 consecutive admissions span more than a window |
| UserLimit.DeniedIff | ratelimit/user.go:38-57 | over any run of checks the next is denied if and only if the admission limit places back is at most a window old |
| UserLimit.RetryIsExact | ratelimit/user.go:51-53 | with nothing admitted meanwhile the user is denied at an instant if and only if it is at most now + retry |
| UserLimit.HeaderSuffices | internal/proxy/server.go:195-199 | the whole seconds of Retry-After (section 10.2.3 of RFC 9110) are the fewest that are enough |
| Tokenizer.Load | embed/tokenizer.go:78-115 | a tokenizer if and only if all four special tokens occur; each token at its first line |
| Tokenizer.LoadTokenizer | embed/tokenizer.go:44-63 | the same with a maximum length that is not positive repaired, which leaves exactly a configured 1 too short |
| Tokenizer.IdsAreInjective | embed/tokenizer.go:83-89 | different tokens have different ids |
| Tokenizer.SplitIsBasic | embed/tokenizer.go:203-225 | white space separates, punctuation stands alone, nothing else is lost |
| Tokenizer.SplitBasic | embed/tokenizer.go:203-225 | the loop computes that splitting |
| Tokenizer.AsciiPunctuation | embed/tokenizer.go:227-243 | the ASCII marks stand alone, and no other character unless the Unicode tables say so |
| Tokenizer.WordPiece | embed/tokenizer.go:166-199 | the nested loops compute the greedy matching, or the unknown id |
| Tokenizer.GreedyCovers | embed/tokenizer.go:166-199 | the pieces cover the word, each the longest vocabulary match at its place |
| Tokenizer.RunesSuffice | embed/tokenizer.go:166-199 | a word whose one-rune pieces are all in the vocabulary is known if and only if it has at most 100 runes |
| Tokenizer.UndecomposableIsUnknown | embed/tokenizer.go:192-194 | a word no pieces make up is unknown |
| Tokenizer.GreedyCanMissADecomposition | embed/tokenizer.go:164-199 | a word pieces do make up that is unknown all the same |
| Tokenizer.KnownIff | embed/tokenizer.go:166-199 | exactly the words of at most 100 runes that decompose into longest matches are known |
| Tokenizer.GreedyIsCompleteIff | embed/tokenizer.go:176-197 | matching gets through wherever pieces do if and only if, over this vocabulary, the longest match never spoils what is left |
| Tokenizer.Encode | embed/tokenizer.go:120-144 | panics exactly for a maximum length below two; otherwise marker, body, marker, padding, and the mask is ones up to the second marker, then zeros, also under truncation |
| Tokenizer.RoundTrip | embed/tokenizer.go:78-225 | when every word is known and the body fits, the ids between the markers spell the text without its white space, normalised exactly if the configuration asks for it |
| Budget.Tracker.Allowed | internal/budget/budget.go:75-86 | rolls over; true if and only if what was recorded so far leaves room: under each limit that is set, less was paid that day, or that month |
| Budget.Tracker.Record | internal/budget/budget.go:88-100 | rolls over, adds a positive cost to all three sums, alerts |
| Budget.Tracker.RollIfStale | internal/budget/budget.go:117-139 | a new day or month resets its own sum and its own marks |
| Budget.Tracker.MaybeAlert | internal/budget/budget.go:141-158 | one alert for each threshold newly crossed, daily before monthly |
| Budget.LedgerIsSums | internal/budget/budget.go:88-139 | daily, monthly and total are the sums paid this day, this month and ever; daily <= monthly <= total |
| Budget.GateAdmitsIff | internal/budget/budget.go:75-86 | over any run of gates and payments, the gate admits if and only if each limit that is set is above the sum paid that day, or that month |
| Budget.AlertsOnce | internal/budget/budget.go:141-158 | after each payment the marks are exactly the thresholds crossed; none is announced twice in its period |
| Budget.MarksAreSums | internal/budget/budget.go:141-158 | after each payment a threshold is marked if and only if it is configured and the sum paid that day, or that month, reaches that fraction of its limit |
| Budget.AlertsAreTruthful | internal/budget/budget.go:141-158 | every alert of any run names a configured threshold and the limit of its period, and a spend that reaches that fraction of it |
| Budget.OvershootBounded | internal/budget/budget.go:75-100 | with at most k requests in flight, each of cost at most C, spend stays below limit + k * C in every reachable state, daily and monthly |
| StableSort.SortInPlace | health/health.go:70-72 | sorted by key, equal keys in their old order |
| StableSort.StableSortUnique | skillrouter/semantic.go:195-195 | a stable sort is determined by its input |
| StableSort.SortedIsPermutation | skillrouter/semantic.go:195-195 | a stable sort is a permutation |
| Vectors.ComputeCosine | skillrouter/semantic.go:216-225 | the loop sums the products, or returns zero for unequal or empty vectors; what that sum means is the next row |
| Vectors.CosineIsNearness | skillrouter/semantic.go:211-225 | the squared distance of two vectors is their squared lengths less twice this sum; for unit vectors, 2 - 2 * cosine |
| Ordering.KeepsOrderIff | skillrouter/semantic.go:211-225 | without normalised embeddings, every prompt finds two prototypes in the order of their true cosines if and only if they are equally long or point in opposite directions |
| Vectors.L2Normalize | skillrouter/embedder_tfidf.go:144-156 | divided by its norm in place; a zero vector untouched |
| Vectors.Embed | skillrouter/embedder_ensemble.go:80-101 | no vector exactly if a source fails or misses its declared dimension; otherwise both parts weighted, side by side, normalised |
| Vectors.UnitCosineBounded | skillrouter/semantic.go:211-225 | the computed cosine of unit vectors lies in [-1, 1] (Cauchy-Schwarz) |
| Vectors.EnsembleCosine | skillrouter/embedder_ensemble.go:23-32 | the combined cosine of unit sources is their average by squared weights, and lies in [-1, 1] |
| Vectors.IdentityIff | skillrouter/embedder_ensemble.go:23-32 | for all vectors and all weights not both zero, the identity holds if and only if the mix of the source cosines is zero or the squared lengths of the combined vectors multiply to the square of the summed squared weights |
| Vectors.ZeroSideBreaksIdentity | skillrouter/embedder_tfidf.go:144-156 | with a zero vector on the prompt's first side it holds if and only if a weight or the other cosine is zero |
| Semantic.Rank | skillrouter/semantic.go:176-200 | the whole catalog by best prototype, stably descending, cut to k; by NearestWins the front is a nearest skill |
| Semantic.FullIsRanking | skillrouter/semantic.go:183-195 | the ranking is the scored catalog, reordered, scores descending |
| Semantic.BestIsBest | skillrouter/semantic.go:186-193 | a skill's score is attained by a prototype and exceeded by none |
| Semantic.Route | skillrouter/semantic.go:141-162 | the verdict on the full ranking, or an error |
| Semantic.VerdictIsBest | skillrouter/semantic.go:141-162 | nobody scores higher, the margin is the distance to the best of the others, and it falls through if and only if every skill is below the threshold |
| Semantic.NearestWins | skillrouter/semantic.go:141-225 | with unit prototypes of the prompt's dimension, a verdict names a skill that owns a prototype as near to the prompt as any of the catalog, and it falls through if and only if even the nearest is farther away than the threshold stands for |
| Fused.Route | skillrouter/fused.go:81-132 | no viable matcher falls through; otherwise the top of the fused scores in whatever order the map is iterated, with the margin to the best of the others |
| Fused.Accumulate | skillrouter/fused.go:102-107 | the map holds, for exactly the ranked names, the sum of the reciprocals over all rankings |
| Fused.WinnerUndominated | skillrouter/fused.go:26-31 | 0 < confidence <= n / k; no skill dominates the winner, and the winner scores strictly above all it dominates |
| Fused.DominatorScoresMore | skillrouter/fused.go:21-24 | ranked no lower by every matcher and higher by one means a strictly higher score |
| Fused.SpreadBeatsMiddle | skillrouter/fused.go:11-15 | first and third beats second twice; in general d above and d below beats the middle |
| Fused.FusedMaximumIff | skillrouter/fused.go:26-27 | for any number of matchers over one list of names, no way to rank it fuses to more than n / k if and only if no name is repeated |
| Fused.MatchersShareCatalog | skillrouter/fused.go:56-75 | matchers over one catalog of distinct names give rankings of one catalog |
| Cascade.CleanReply | skillrouter/prompt.go:108-132 | the steps compute the cleaned reply: label, quotes, end punctuation, first line |
| Cascade.DressedIsCleaned | skillrouter/prompt.go:105-131 | a name in quotes with punctuation inside them, with or without a label in front, is cleaned to the name |
| Cascade.StopOutsideQuotes | skillrouter/prompt.go:121-123 | with punctuation outside the quotes the closing quotes stay on, unless they are only spaces |
| Cascade.CleanedIsOneLine | skillrouter/prompt.go:124-130 | a cleaned reply is a single line |
| Cascade.ParseSkill | skillrouter/prompt.go:65-103 | of the cleaned reply: exact match, else case-insensitive, else the longest name mentioned, first among equals; else it falls through |
| Cascade.MakeShortlist | skillrouter/cascade.go:170-182 | the ranked names, in order, as catalog entries |
| Cascade.Route | skillrouter/cascade.go:106-162 | the embedding side's verdict, unless the second stage is consulted and answers; then one of the ranked names or a fall-through |
| Cascade.ConsultsIff | skillrouter/cascade.go:119-141 | the second stage is consulted if and only if there is one, the top score reaches the threshold, and its lead is below the configured margin |
| Cascade.CascadeRefinesPrimary | skillrouter/cascade.go:113-138 | without an answer the decision is the primary's on every prompt, if and only if the shortlist is not a single entry cut from a catalog whose top two differ |
| Sse.LineReader.Next | provider/openai/openai.go:190-222 | the reading loop computes the line-by-line reader, with its look at the context before every line; a closed reader is at its end |
| Sse.CancelLosesNothing | provider/openai/openai.go:194-197 | a read is the plain one, or canceled with every payload still to come |
| Sse.LineReader.ReadString | provider/openai/openai.go:198-198 | a line with its newline, or the discarded rest |
| Sse.FramesReadBack | internal/proxy/stream.go:119-138 | frames up to an end marker read back as their payloads and an end, whatever follows them on the wire; an error event is one more payload |
| Sse.DispatchReadsBack | internal/proxy/stream.go:34-117 | every streaming dispatch, written out and read back: all chunks of the provider that answered, in order, an error as one more payload, then the end |
| Sse.ChunkSurvives | internal/proxy/stream.go:119-126 | a chunk reads back as its payload if and only if that has no newline, no white space at its ends, is not the end marker, and decodes |
| Sse.NextIsClean | provider/openai/openai.go:205-219 | the reader yields only such payloads, from any text |
| Sse.TruncationIsPrefix | provider/openai/openai.go:198-204 | any text cut anywhere reads back as a prefix of its payloads, ending normally unless the connection broke |
| Sse.LossIsUnnoticedIff | provider/openai/openai.go:198-204 | when a cut loses payloads, the end is a normal one if and only if the connection does not break |
| Sse.LostChunks | provider/openai/openai.go:198-204 | any stream of chunks cut before its last ones reads as the first ones and a normal end |
| Optimize.Apply | internal/optimize/optimize.go:31-51 | off hands back the caller's messages; safe mode returns fresh ones, compacted, leaving the caller's as they were; sizes and what was applied are right |
| Optimize.CollapseWhitespace | internal/optimize/optimize.go:56-75 | every decodable text is collapsed in place, and it tells whether any changed |
| Optimize.DedupRepeatedToolOutputs | internal/optimize/optimize.go:77-106 | the loop keeps exactly the messages that repeat no earlier tool output's head |
| Optimize.CollapseKeepsWords | internal/optimize/optimize.go:53-70 | the words of a text survive collapsing, in order and whole, and its bytes never grow |
| Optimize.CollapseIsTidy | internal/optimize/optimize.go:53-70 | a text is left alone if and only if it has no tabs, double spaces, triple newlines or white space at its ends; twice is once |
| Optimize.BlanksBecome | internal/optimize/optimize.go:53-64 | wherever it stands, a longest run of spaces and tabs becomes one space |
| Optimize.NewlinesBecome | internal/optimize/optimize.go:54-65 | wherever it stands, a longest run of newlines becomes at most two |
| Optimize.DroppedHasSurvivor | internal/optimize/optimize.go:90-100 | behind every dropped tool output an earlier one with the same 256-byte head stays |
| Optimize.HeadsAgreeIff | internal/optimize/optimize.go:90-94 | two outputs have the same head if and only if they are the same bytes, or both have at least 256 and agree on the first 256 |
| Optimize.CompactIsIdempotent | internal/optimize/optimize.go:31-51 | compacting twice is compacting once |
| Optimize.CompactKeepsMeaning | internal/optimize/optimize.go:31-106 | messages that are not tool outputs with a text all stay, in order, and say the same; every tool output stays or follows a survivor with its head; nothing is made up |

## Left out

- Server.Server.CompleteWithFallback: one dispatch at a time; concurrent requests share the books and may call a model on a check that another request has just made stale.
- Server.Server.StreamWithFallback: as above, and context cancellation appears only as a provider error.
- Recovery.CallsIff: dispatches follow one another, as in Breaker.RunsAreSpaced.
- Breaker.RunsAreSpaced: dispatches follow one another; with concurrent ones a call may follow another's failure at once.
- Journal.AnswersAreKept: speaks of batch requests one after another, as the runs of Handler do.
- Journal.RefusedIff: as above; with requests in flight the bound is Budget.OvershootBounded.
- Handler.Handler.Handle: one request at a time, for the same reason; response headers, metrics, the log entry's fields and JSON errors are not modelled, and an answer served from the cache is its encoded text, not a shared pointer.
- Router.Router.Route: what the classifier measures is given, and not how it does.
- Router.ExtractMeta: what one message's content shows, and whether a request declares tools or carries a tool call, are given.
- Health.Tracker.Order: one clock reading for the whole sort, where the code reads the clock at every comparison.
- Budget.OvershootBounded: from a fresh tracker; saving and loading, which does not restore the alerts already announced, is not modelled.
- UserLimit.RetryIsExact: speaks of the stretch in which nothing is admitted for that user.
- Tokenizer.RoundTrip: lower-casing, accent stripping and the character classes are given functions; the scanner's line limit and 32-bit ids are not modelled.
- Cascade.ParseSkill: case folding is a given function.
- Sse.LineReader.Next: decoding JSON is a given predicate.
- Sse.DispatchReadsBack: a chunk that cannot be encoded, which the writer skips, is not modelled.
- Fused.Route: the damping constant is any positive number, where the constructor ignores its options and always sets 60.
- Optimize.Apply: the aggressive mode's truncation, which can lengthen a text just over its limit, is not modelled.
- Vectors.EnsembleCosine: exact arithmetic, not 32-bit floats.
- Semantic.NearestWins: as above; prototypes are of unit length, as the embedders promise.
- Vectors.IdentityIff: with both weights zero the identity divides by zero, and says nothing.
- Session expiry, which only Session.Get performs and the router never calls.
- Submitting to a logger pool after Close, which panics on the closed channel.
- A cascade without a primary matcher, which is an error at once.
- HTTP handlers, middleware, authentication, JSON, provider networking, storage, metrics and the command line: plumbing.
- Building the TF-IDF vocabulary, keyword and reasoning markers, alias tables, prompt rendering, model metadata and savings totals: they would add easy members only.
