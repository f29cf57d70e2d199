# Verified model of AgentShip's stateful core

AgentShip runs LLM agents as LangGraph turns. This project models, in Dafny, the parts of it that keep
state and make promises about it, and proves those promises for all inputs and all runs.

- **Exactly-once tool writes** (`CallOnce`, `WriteAhead`, `ThreadDrivers`, `ConversationDrivers`,
  `ThreadLock`). A side-effecting tool call is looked up in a ledger, declared `pending`, fired, and
  settled as `done`. `CallOnce` is the code as one task runs it. `WriteAhead` is the same protocol as
  single steps of any number of workers over one ledger and one lock table, with a crash or a raise
  allowed anywhere; `ThreadDrivers` and `ConversationDrivers` say when the lock, taken for a tenant and
  a thread, keeps a thread to one driver. `ThreadLock` is the in-process lock with its reclaim of dead
  owners.
- **Idempotency keys** (`JsonText`, `CanonicalJson`, `CanonicalJsonLaws`, `PrintedForm`, `IdempotencyKey`). The
  deterministic JSON printer with a reader that undoes it, and the delimiter joins above it, up to the
  text that is hashed. Strings are sequences of code points, lone surrogates included.
- **Supervisor turns** (`ConflictResolver`, `ResolverOutright`, `Dispatch`, `Retry`, `Supervisor`,
  `Checkpoints`, `SupervisorRuns`, `SupervisorAnswers`, `IndependentRetries`). Fan-out, bounded retry and merge as a
  checkpointed state machine.
- **Rate limiting** (`TokenBucketModel`, `RateLimiter`, `RateWindows`). The token bucket over real time, and the
  dictionary of buckets behind the middleware.
- **Traces** (`SpanForest`, `WalkOrder`, `Recorder`, `RecorderRuns`, `FrozenWalk`, `Interleaving`,
  `RecorderDriving`, `Tracing`). The mutable span tree on the heap, driven by one task or by many, its frozen walk, and the
  callback that builds spans from interleaved events.
- **The stream transducer** (`Stream`, `StreamReading`). Graph events in, client events out.

Code that updates state is modelled by methods and classes proved against specification functions;
the properties are proved about those functions, and what each of those functions means is said once
more without them (`ResolverOutright`, `FrozenWalk`, `StreamReading`, `RateWindows`, `PrintedForm`, and
the lemmas at the end of `Dispatch`). What the repository gets from outside (outcomes of
tools, specialists and models, clock readings, human decisions, completion orders, observer failures)
enters as parameters, so every theorem holds for all of them.

## Where the code does not do what it is meant to

Each of these is proved: as an exact condition, with a witness, or both.

- A turn started by `run` takes no thread lock, so exactly-once is about drivers that enter through the
  lock; `ThreadDrivers.ExclusiveUnlessIntruding` says exactly which steps break exclusivity and
  `ThreadDrivers.UnlockedTurnRacesResume` shows the race.
- The lock is taken for tenant and thread, ledger and checkpoints are kept for the thread alone. Entering
  through the lock therefore protects a write if and only if the tenants admitted to its thread meet at
  one lock (`ThreadDrivers.ExactlyOnceIffOneLock`). Tenants and agents without slashes see to that
  (`ConversationDrivers.CleanCallersFireOnce`); two tenants whose ids spell one conversation key fire a
  write twice (`ConversationDrivers.SafeAmongAllIffNoSlash`, `ConversationDrivers.TwoTenantsFireTwice`).
- `release_dead_owner` frees a hash key, not a thread: it is safe exactly when no live owner sits on that
  key, under whatever thread (`ThreadLock.StepKeepsInv`).
- `canonical_json` prints a split surrogate pair like the character it encodes
  (`CanonicalJsonLaws.SplitPairsClash`); that is its only ambiguity (`CanonicalJsonLaws.PrintsAgreeIff`).
- A conversation key is unmistakable exactly when no id holds a slash
  (`IdempotencyKey.UnmistakableIffNoSlash`).
- The rate limiter's comment says that a spray of different bad keys shares the caller's IP bucket. The
  code throttles by credential alone (`RateLimiter.KeysTellClientsApart`), so such a spray is never
  throttled (`RateLimiter.SprayIsNeverThrottled`, `RateLimiter.TwoBadKeysTwoBuckets`).
- `retry_after` can be up to a thousandth of a second short (`TokenBucketModel.WaitingSuffices`), and a
  clock that steps back over-admits (`TokenBucketModel.BackwardClockOverAdmits`).
- `attempts` is meant to count passes made per specialist. A pass charges exactly what it runs if and only
  if the strategy is not `single` or at most one specialist is listed
  (`SupervisorRuns.ChargesAreInvocationsIff`); a first `single` pass can charge one that never ran
  (`SupervisorAnswers.ChargedAndNeverRun`), later ones cannot
  (`SupervisorAnswers.OnlyAFirstPassOvercharges`).
- The supervisor's confirmation pauses a turn but does not change it: a rejected write gets the same
  answer as an approved one (`SupervisorAnswers.DecisionOnlyDelays`).
- `tool_calls` promises execution order. It has it if and only if of every two tool spans the older one
  holds the younger or sits on the older branch (`RecorderRuns.ToolCallsInExecutionOrderIff`);
  `RecorderRuns.LateToolIsListedEarly` is a program for which it does not.
- A whole reply of blocks without answer text becomes the streamed content as it is, thoughts included
  (`Stream.ContentIgnoresReasoningIff`).
- A model call whose span could not be opened, and that then ends well, leaves its model id behind
  (`Tracing.MatchedRunsLeaveNothing`).

## Model

| member | source | states |
|---|---|---|
| `CallOnce.Guard.CallOnce` | packages/agentship-core/src/agentship/primitives/idempotency.py:117-148 | case by case: a `done` row answers by itself, a `pending` one is verified and never fired again, an unseen key fires once; a result is recorded, no other row is touched, and every firing of a write finds its own `pending` row already recorded |
| `CallOnce.Guard.RunTool` | packages/agentship-langgraph/src/agentship_langgraph/tools.py:194-231 | reads bypass the ledger; a rejected write leaves ledger and effect untouched; an approved one is one guarded call. The model is told what the tool returned, what a `done` row holds, or what verifying a `pending` one returned; a raise is a text with the tool's name and the message in it that is never a rejection |
| `CallOnce.RejectionTells` | packages/agentship-langgraph/src/agentship_langgraph/tools.py:211-215 | a rejection names the tool and says that nothing was executed |
| `CallOnce.Ledger.Lookup` | packages/agentship-core/src/agentship/primitives/idempotency.py:101-103 | a row is found exactly when the key was recorded |
| `CallOnce.Ledger.Record` | packages/agentship-core/src/agentship/primitives/ledger.py:118-127 | the row of that key, and no other, is overwritten; a durable row keeps only what JSON carries |
| `CallOnce.Stored` | packages/agentship-core/src/agentship/primitives/ledger.py:58-69 | what a row keeps shows the same text; a JSON value, and any value in memory, survives unchanged; a durable row always holds JSON |
| `CallOnce.SequentialFirings` | packages/agentship-core/src/agentship/primitives/idempotency.py:120-134 | over any sequence of guarded calls of one key a write fires on the first call at most, an idempotent effect until it first returns |
| `WriteAhead.AdvanceKeepsBooks` | packages/agentship-core/src/agentship/primitives/idempotency.py:135-148 | each single step of a call keeps the tie between its position, the row, the firings and the approval of its key |
| `WriteAhead.RunKeepsInv` | packages/agentship-core/src/agentship/primitives/idempotency.py:135-148 | the inductive invariant holds at every state of every run that keeps threads exclusive |
| `WriteAhead.WriteFiresAtMostOnce` | packages/agentship-core/src/agentship/primitives/idempotency.py:117-134 | with one driver per thread, a write fires at most once per key over a durable ledger, and at most once per process life over a volatile one |
| `WriteAhead.IdempotentFirings` | packages/agentship-core/src/agentship/primitives/idempotency.py:127-128 | an idempotent effect fires once per interruption plus at most once more, exactly once more when its row is written |
| `WriteAhead.FiredWritesAreOnRecord` | packages/agentship-core/src/agentship/primitives/idempotency.py:81-85 | a write that fired has a row, whatever crashed since |
| `WriteAhead.SettledIsFinal` | packages/agentship-core/src/agentship/primitives/idempotency.py:122 | a `done` row never changes again |
| `WriteAhead.RepliesAgree` | packages/agentship-core/src/agentship/primitives/idempotency.py:122-126 | all answers ever given for a key are equal up to what the row can carry, and the row holds that answer |
| `WriteAhead.NothingWithoutApproval` | packages/agentship-langgraph/src/agentship_langgraph/tools.py:206-215 | under confirmation nothing fires and no row is written before an approval |
| `WriteAhead.UndisturbedIsGuarded` | packages/agentship-core/src/agentship/primitives/idempotency.py:117-148 | driven to its end alone, the stepwise protocol is the sequential guarded call |
| `ThreadDrivers.StepKeepsLockOk` | packages/agentship-core/src/agentship/thread_lock.py:28-96 | lock table and locked sessions, keyed by tenant and thread, describe each other; a crashed session takes its lock with it |
| `ThreadDrivers.LeavingAdmitsNext` | packages/agentship-core/src/agentship/thread_lock.py:28-96 | while a lock is held nobody else gets in under it; once its driver has left or died the next one does; a driver with a call under way does not leave |
| `ThreadDrivers.ExclusiveUnlessIntruding` | packages/agentship-langgraph/src/agentship_langgraph/engine.py:728 | a step keeps a thread exclusive if and only if it neither starts a turn on it while driven nor resumes it past a driver with no lock or the lock of another tenant |
| `ThreadDrivers.LockedRunsAreExclusive` | packages/agentship-langgraph/src/agentship_langgraph/engine.py:711-729 | if all drivers enter through the lock, and the tenants admitted to a thread meet at one lock, the thread never has two drivers |
| `ThreadDrivers.ExactlyOnceUnderTheLock` | packages/agentship-langgraph/src/agentship_langgraph/engine.py:692-694 | any number of such workers, crashing or raising anywhere, over a durable ledger: at most one firing per key of that thread |
| `ThreadDrivers.ExactlyOnceIffOneLock` | packages/agentship-langgraph/src/agentship_langgraph/engine.py:728 | a write fires at most once in every run of admitted, locked drivers if and only if the tenants admitted to its thread meet at one lock |
| `ThreadDrivers.TwoLocksFireTwice` | packages/agentship-langgraph/src/agentship_langgraph/engine.py:711-728 | two locked drivers of one thread under different locks fire its write twice |
| `ThreadDrivers.UnlockedTurnRacesResume` | packages/agentship-langgraph/src/agentship_langgraph/engine.py:657-680 | a turn started without the lock and a resume of its thread fire one write twice |
| `ThreadDrivers.VolatileLedgerFiresTwice` | packages/agentship-core/src/agentship/primitives/ledger.py:3-9 | with the ledger in memory a locked, crash-restarted run fires a write twice |
| `ConversationDrivers.CleanCallersFireOnce` | packages/agentship-core/src/agentship/context.py:128-143 | callers without a slash in tenant and agent never meet another tenant on a thread: none of their writes fires twice |
| `ConversationDrivers.SafeAmongAllIffNoSlash` | packages/agentship-core/src/agentship/context.py:128-143 | among all callers, the writes of one caller's conversation fire at most once if and only if none of its three ids holds a slash |
| `ConversationDrivers.TwoTenantsFireTwice` | packages/agentship-langgraph/src/agentship_langgraph/engine.py:706-728 | two tenants whose ids spell one conversation key both enter through a lock, and fire one write twice |
| `ThreadLock.InMemoryThreadLock.Enter` | packages/agentship-core/src/agentship/thread_lock.py:129-138 | acquires exactly when the key is free, and then holds it; a refused object and the table stay as they were |
| `ThreadLock.InMemoryThreadLock.Exit` | packages/agentship-core/src/agentship/thread_lock.py:140-149 | frees the key once, only if this object owns it |
| `ThreadLock.HeldKeys.ReleaseDeadOwner` | packages/agentship-core/src/agentship/thread_lock.py:111-120 | frees that key and no other; a no-op on a free one |
| `ThreadLock.StepKeepsInv` | packages/agentship-core/src/agentship/thread_lock.py:109-149 | a step keeps one live owner per key if and only if it is not a reclaim under a live owner |
| `ThreadLock.AtMostOneLiveOwner` | packages/agentship-core/src/agentship/thread_lock.py:99-107 | at most one live owner per (tenant, thread) over all interleavings and any hash |
| `ThreadLock.ExitFreesOnlyItsOwn` | packages/agentship-core/src/agentship/thread_lock.py:147-149 | an exit leaves every other live hold in place; a second exit does nothing |
| `ThreadLock.LeavingAdmitsNext` | packages/agentship-core/src/agentship/thread_lock.py:129-149 | a held thread admits nobody and is not changed by trying; after the exit of its owner the next worker gets in |
| `ThreadLock.ReclaimAdmitsNext` | packages/agentship-core/src/agentship/thread_lock.py:113-119 | a dead owner blocks the thread until it is reclaimed, then the next worker gets in |
| `ThreadLock.CollidingReclaimBreaksIt` | packages/agentship-core/src/agentship/thread_lock.py:120 | for colliding keys, reclaiming an idle thread gives the busy one two live owners |
| `JsonText.QuotedReads` | packages/agentship-core/src/agentship/primitives/idempotency.py:36 | reading a string literal undoes writing it, by the escapes of section 7 of RFC 8259, with split surrogate pairs joined |
| `JsonText.LiteralsClashIffFusedAlike` | packages/agentship-core/src/agentship/primitives/idempotency.py:36 | two strings print alike if and only if they agree once split surrogate pairs are joined |
| `JsonText.FuseIsIdentityIffUnsplit` | packages/agentship-core/src/agentship/primitives/idempotency.py:36 | joining changes a string if and only if it holds a split pair |
| `JsonText.IntegerReads` | packages/agentship-core/src/agentship/primitives/idempotency.py:36 | reading a decimal integer undoes writing it |
| `CanonicalJson.DecodePrint` | packages/agentship-core/src/agentship/primitives/idempotency.py:28-36 | a whole-value reader undoes the printer, up to key order and split pairs, for every value |
| `CanonicalJsonLaws.PrintDependsOnTheMeaning` | packages/agentship-core/src/agentship/primitives/idempotency.py:31-32 | any two orders of the same members, at any depth, print the same |
| `CanonicalJsonLaws.PrintsAgreeIff` | packages/agentship-core/src/agentship/primitives/idempotency.py:28-36 | for all values: equal prints exactly when the sorted values agree up to split pairs |
| `CanonicalJsonLaws.DecodeMeans` | packages/agentship-core/src/agentship/primitives/idempotency.py:28-36 | what is read back means what was printed |
| `CanonicalJsonLaws.PrintsAgreeIffMeaningsDo` | packages/agentship-core/src/agentship/primitives/idempotency.py:28-36 | without split pairs the printer is an injective function of the value |
| `CanonicalJsonLaws.SplitPairsClash` | packages/agentship-core/src/agentship/primitives/idempotency.py:36 | every split pair prints as the character it encodes, though the strings differ |
| `CanonicalJsonLaws.PrintIsPrintable` | packages/agentship-core/src/agentship/primitives/idempotency.py:33 | the output is printable ASCII, so the key separator never occurs in it |
| `PrintedForm.EscapeIsTheShortest` | packages/agentship-core/src/agentship/primitives/idempotency.py:33-36 | each 16-bit unit is written as the one shortest printable text that reads as it, `\uXXXX` in lower case |
| `PrintedForm.LiteralsAreShortest` | packages/agentship-core/src/agentship/primitives/idempotency.py:36 | no printable literal that reads as the same text is shorter than the printed one |
| `PrintedForm.ShortEscapes` | packages/agentship-core/src/agentship/primitives/idempotency.py:36 | the seven escapes of two characters, letter by letter |
| `PrintedForm.LongEscapes` | packages/agentship-core/src/agentship/primitives/idempotency.py:33-36 | a control character, delete and a code point beyond 16 bits as `\uXXXX`, the last as its surrogate pair |
| `PrintedForm.KeysAscend` | packages/agentship-core/src/agentship/primitives/idempotency.py:31 | an object is printed with its own members, each value canonical, in ascending order of keys: by the first code point that differs, a prefix first |
| `PrintedForm.ListsAreJoined` | packages/agentship-core/src/agentship/primitives/idempotency.py:36 | a list is its items between brackets with a comma and nothing else between two |
| `PrintedForm.ObjectsAreJoined` | packages/agentship-core/src/agentship/primitives/idempotency.py:36 | an object is its members between braces, each key, colon, value, with a comma and nothing else between two |
| `PrintedForm.IntegersArePlain` | packages/agentship-core/src/agentship/primitives/idempotency.py:36 | integers have no leading zero, and a sign exactly below zero |
| `IdempotencyKey.SplitJoin` | packages/agentship-core/src/agentship/primitives/idempotency.py:47 | splitting undoes joining when no part holds the separator |
| `IdempotencyKey.ConversationsAgreeIff` | packages/agentship-core/src/agentship/context.py:143 | callers without a slash in tenant and agent share a conversation key only if they are the same |
| `IdempotencyKey.UnmistakableIffNoSlash` | packages/agentship-core/src/agentship/context.py:143 | no other caller shares a conversation key if and only if none of its three ids holds a slash |
| `IdempotencyKey.SlashMoves` | packages/agentship-core/src/agentship/context.py:143 | a slash may be read as part of any neighbouring id: three callers, one key |
| `IdempotencyKey.CallSitesAgreeIff` | packages/agentship-langgraph/src/agentship_langgraph/tools.py:92-102 | call sites agree if and only if node names, step and call id do, but for a lone nameless node, which reads as no node |
| `IdempotencyKey.NamesOfNamespace` | packages/agentship-langgraph/src/agentship_langgraph/tools.py:99 | the node names come back out of a checkpoint namespace, whatever its task ids |
| `IdempotencyKey.SegmentsStandAlone` | packages/agentship-langgraph/src/agentship_langgraph/tools.py:98 | each segment of a namespace counts by itself: an empty one not at all, any other as its text up to the first colon |
| `IdempotencyKey.PayloadsAgreeIff` | packages/agentship-core/src/agentship/primitives/idempotency.py:39-48 | two calls with clean ids have the same hashed text if and only if they are the same call with the same arguments |
| `IdempotencyKey.PayloadFields` | packages/agentship-core/src/agentship/primitives/idempotency.py:47 | cut at U+001F the hashed text is conversation, call site, tool and arguments; cut at bars the call site is `tool`, node names, step, call id; cut at slashes the conversation is tenant, agent, session |
| `IdempotencyKey.ResumeKeepsTheKey` | packages/agentship-langgraph/src/agentship_langgraph/tools.py:75-91 | new task ids and re-ordered arguments leave the key alone |
| `IdempotencyKey.NextTurnGetsItsOwnKey` | packages/agentship-langgraph/src/agentship_langgraph/tools.py:78-86 | the same call at a later step gets another key |
| `TokenBucketModel.TokenBucket.TryConsume` | packages/agentship-service/src/agentship_service/middleware/ratelimit.py:42-50 | the object does what the value-level bucket does |
| `TokenBucketModel.AdmitsIffEveryWindowHasRoom` | packages/agentship-service/src/agentship_service/middleware/ratelimit.py:42-50 | a request is admitted if and only if every window reaching back from it has room for one more, whatever the clock does |
| `TokenBucketModel.RoomIs` | packages/agentship-service/src/agentship_service/middleware/ratelimit.py:44-45 | the room of a window is capacity plus rate times forward clock movement less admissions |
| `TokenBucketModel.SlidingWindow` | packages/agentship-service/src/agentship_service/middleware/ratelimit.py:28-33 | in any window, over a non-decreasing clock, at most capacity + rate * length admissions |
| `TokenBucketModel.TokensStayInRange` | packages/agentship-service/src/agentship_service/middleware/ratelimit.py:44-48 | tokens stay between 0 and capacity for any times |
| `TokenBucketModel.BackwardClockOverAdmits` | packages/agentship-service/src/agentship_service/middleware/ratelimit.py:44-46 | a clock that steps back admits two at one instant from a bucket of one |
| `TokenBucketModel.RetryIsNeverTooLong` | packages/agentship-service/src/agentship_service/middleware/ratelimit.py:52-57 | the hint is at most any whole number of seconds that suffices |
| `TokenBucketModel.WaitingSuffices` | packages/agentship-service/src/agentship_service/middleware/ratelimit.py:52-57 | waiting the hint out gets a token if and only if rounding lost no sliver under a thousandth of a second |
| `TokenBucketModel.ShortfallIsSmall` | packages/agentship-service/src/agentship_service/middleware/ratelimit.py:57 | what is missing otherwise is less than 0.001 * rate tokens |
| `TokenBucketModel.FastRatesNeverFallShort` | packages/agentship-service/src/agentship_service/middleware/ratelimit.py:57 | at one token a second or faster the hint always suffices |
| `TokenBucketModel.ToldToWaitAndRefusedAgain` | packages/agentship-service/src/agentship_service/middleware/ratelimit.py:52-57 | a reachable case in which a client waits as told and is refused again |
| `RateLimiter.RateLimitMiddleware.Call` | packages/agentship-service/src/agentship_service/middleware/ratelimit.py:87-103 | one request changes the bucket of its own key only, made full on first use, and is answered by it |
| `RateLimiter.BucketsAreIndependent` | packages/agentship-service/src/agentship_service/middleware/ratelimit.py:93-99 | after any interleaving each bucket is what its own key alone would have made of it |
| `RateLimiter.AnswersAreIndependent` | packages/agentship-service/src/agentship_service/middleware/ratelimit.py:87-103 | every answer equals that of a lone bucket fed only that key |
| `RateLimiter.OnlyEnabledHttpIsLimited` | packages/agentship-service/src/agentship_service/middleware/ratelimit.py:95-107 | a disabled limiter and a scope that is not HTTP are passed and change no bucket; any other request is counted in the bucket of its key and no other |
| `RateLimiter.HeaderIsLast` | packages/agentship-service/src/agentship_service/middleware/ratelimit.py:141 | of several headers of a name the last one counts |
| `RateLimiter.RequestsAreKeyed` | packages/agentship-service/src/agentship_service/middleware/ratelimit.py:134-150 | read off the headers: the last API key if it says something, else the last authorization if it does, else the host or `unknown` |
| `RateWindows.NobodyGetsMore` | packages/agentship-service/src/agentship_service/middleware/ratelimit.py:25-31 | in any window of all traffic, whatever other clients do, a client is let through at most burst plus rate times length often |
| `RateWindows.GrantedIffEveryWindowLeavesRoom` | packages/agentship-service/src/agentship_service/middleware/ratelimit.py:94-112 | and is let through exactly when every window that opens with a request of its own leaves room for one more: burst, rate and clock readings alone decide |
| `RateLimiter.KeysTellClientsApart` | packages/agentship-service/src/agentship_service/middleware/ratelimit.py:141-149 | requests share a bucket if and only if they present the same credential: kind and value of API key, authorization or host |
| `RateLimiter.SprayIsNeverThrottled` | packages/agentship-service/src/agentship_service/middleware/ratelimit.py:134-144 | with a burst of at least one, requests with pairwise different API keys are all admitted, whatever host they come from |
| `RateLimiter.TwoBadKeysTwoBuckets` | packages/agentship-service/src/agentship_service/middleware/ratelimit.py:137-139 | one host, a bucket of one: the same bad key twice is refused, a second bad key is not |
| `ConflictResolver.ResolvePicksTheWinner` | packages/agentship-core/src/agentship/primitives/conflict_resolver.py:96-119 | the resolution is the one position that beats all surviving others, or none if nobody survives |
| `ConflictResolver.SomebodyWins` | packages/agentship-core/src/agentship/primitives/conflict_resolver.py:102-112 | a nonempty field always has such a position |
| `ConflictResolver.WinnerIsUnique` | packages/agentship-core/src/agentship/primitives/conflict_resolver.py:89 | there is only one |
| `ConflictResolver.RankIsFirstPlace` | packages/agentship-core/src/agentship/primitives/conflict_resolver.py:74-79 | a rank is the first place in the priority list, or one past its end |
| `ConflictResolver.LosersDoNotMatter` | packages/agentship-core/src/agentship/primitives/conflict_resolver.py:84-90 | removing any loser leaves the winner in place |
| `ConflictResolver.FailuresDoNotMatter` | packages/agentship-core/src/agentship/primitives/conflict_resolver.py:84-86 | adding a failed result anywhere changes neither winner, output nor considered |
| `ConflictResolver.OrderDoesNotMatter` | packages/agentship-core/src/agentship/primitives/conflict_resolver.py:89-90 | with distinct ranks any permutation gives the same winner and output |
| `ConflictResolver.ConsideredAndDroppedPartition` | packages/agentship-core/src/agentship/primitives/conflict_resolver.py:96-97 | considered and dropped split the inputs, in order |
| `ResolverOutright.ResolveMerges` | packages/agentship-core/src/agentship/primitives/conflict_resolver.py:84-119 | without ranks or sub-lists: nobody succeeds exactly if no result is usable; else the winner is a usable result preferred to all others by the priority list, then by confidence or place; the usable and the rest are listed in order |
| `ResolverOutright.OneWins` | packages/agentship-core/src/agentship/primitives/conflict_resolver.py:103-112 | there is only one such result |
| `Dispatch.RunSafely` | packages/agentship-core/src/agentship/primitives/dispatch.py:98-115 | a result always carries the specialist's name, and survives only if that run answered |
| `Dispatch.Gather` | packages/agentship-core/src/agentship/primitives/dispatch.py:163 | for every completion order the results are the map over the specialists |
| `Dispatch.Dispatch` | packages/agentship-core/src/agentship/primitives/dispatch.py:130-173 | each strategy returns its specified results; an unknown one is refused even for no specialist |
| `Dispatch.DispatchInSequence` | packages/agentship-core/src/agentship/primitives/dispatch.py:164-171 | the loop forwards text step by step: it is the left fold that hands on the `output` text, that field rendered, or the rendered dictionary |
| `Dispatch.ChainIsFold` | packages/agentship-core/src/agentship/primitives/dispatch.py:164-171 | the chain is that fold, whose forwarding is spelled out |
| `Dispatch.StepsHandOn` | packages/agentship-core/src/agentship/primitives/dispatch.py:118-171 | a step hears the text under `output` of the step before as it is, any other value there rendered, and without that field, as after a failure, the rendered dictionary |
| `Dispatch.StrategiesRun` | packages/agentship-core/src/agentship/primitives/dispatch.py:143-171 | `single` runs the first on the message, `parallel` all on the message, `sequential` all and the first on the message; any other name is refused, even for an empty list |
| `Dispatch.RunReports` | packages/agentship-core/src/agentship/primitives/dispatch.py:41-115 | a result reports its run: the fields of an answer, a bare value under `output`, a number as confidence; a timeout or raise leaves no output and says why |
| `Dispatch.UnknownNamesAreRefused` | packages/agentship-core/src/agentship/primitives/dispatch.py:65-74 | nothing is resolved unless every name is known, and the first unknown one is reported |
| `Dispatch.NobodyEscapes` | packages/agentship-core/src/agentship/primitives/dispatch.py:144-146 | one result per invoked specialist, in order, whatever the runs come to |
| `Retry.ToRetryIsTheEligible` | packages/agentship-core/src/agentship/primitives/retry.py:40-55 | exactly the retryable names under the cap are listed |
| `Retry.SilentIsNotRetryable` | packages/agentship-core/src/agentship/primitives/retry.py:27-28 | a result without an error text is never retryable |
| `Retry.ToRetryAppend` | packages/agentship-core/src/agentship/primitives/retry.py:51-55 | names come in the order of the results and each result is judged by itself |
| `SupervisorRuns.RunsAreJudged` | packages/agentship-core/src/agentship/primitives/retry.py:21-37 | a timed-out run is retryable if and only if `timeout` is listed, a raise with a text not starting like one if and only if `specialist_error` is, an answer and an empty raise never |
| `SupervisorRuns.EveryResultIsJudged` | packages/agentship-core/src/agentship/primitives/retry.py:34-37 | so is every result of every checkpoint |
| `Supervisor.DispatchNode` | packages/agentship-langgraph/src/agentship_langgraph/templates/graph_supervisor.py:142-167 | one pass updates results and attempts as specified, or refuses before anything runs |
| `SupervisorRuns.PassesRun` | packages/agentship-langgraph/src/agentship_langgraph/templates/graph_supervisor.py:146-157 | a pass commits if and only if the strategy is known and every name exists; it names the whole route first and the eligible later, and runs them on the message as the strategy says |
| `Supervisor.MergeAll` | packages/agentship-langgraph/src/agentship_langgraph/templates/graph_supervisor.py:166 | the loop computes the dict merge |
| `Supervisor.BumpAll` | packages/agentship-langgraph/src/agentship_langgraph/templates/graph_supervisor.py:164-165 | the loop charges one attempt per listed name |
| `Supervisor.MergeAt` | packages/agentship-langgraph/src/agentship_langgraph/templates/graph_supervisor.py:146-166 | a merge keeps names distinct and in place, each with its latest result, and appends new names |
| `Supervisor.MergeHas` | packages/agentship-langgraph/src/agentship_langgraph/templates/graph_supervisor.py:166 | a merge holds the names of either side and no other |
| `Supervisor.BumpAdds` | packages/agentship-langgraph/src/agentship_langgraph/templates/graph_supervisor.py:164-165 | each name is charged as often as it is listed |
| `Supervisor.ToRetryOnce` | packages/agentship-core/src/agentship/primitives/retry.py:51-55 | among distinct results every eligible name is listed once |
| `SupervisorRuns.StepKeepsOk` | packages/agentship-langgraph/src/agentship_langgraph/templates/graph_supervisor.py:139-167 | each committed node keeps the invariant of turns |
| `SupervisorRuns.StepDescends` | packages/agentship-core/src/agentship/primitives/retry.py:48-49 | each committed node strictly lowers a natural rank |
| `SupervisorRuns.UndisturbedIsOver` | packages/agentship-langgraph/src/agentship_langgraph/templates/graph_supervisor.py:222-232 | a turn is over after at most five nodes and max(1, max_attempts) passes |
| `SupervisorRuns.IdenticalResume` | packages/agentship-langgraph/src/agentship_langgraph/engine.py:149-154 | any schedule of crashes ends in the state and answer of the turn without crashes |
| `SupervisorRuns.BudgetSurvivesCrashes` | packages/agentship-langgraph/src/agentship_langgraph/templates/graph_supervisor.py:145-167 | no more passes are committed than the cap; invocations are bounded by cap or route plus those lost in crashed passes, and for a specialist routed once by max(1, max_attempts) plus the number of crashes |
| `SupervisorRuns.CrashesLoseOneEach` | packages/agentship-langgraph/src/agentship_langgraph/templates/graph_supervisor.py:145-167 | over a run, crashes lose at most one invocation each of a specialist routed once |
| `SupervisorRuns.ChargesAreInvocationsIff` | packages/agentship-langgraph/src/agentship_langgraph/templates/graph_supervisor.py:157-165 | a pass charges exactly the invocations it makes if and only if the strategy is not `single` or it lists at most one specialist |
| `SupervisorRuns.CrashLosesOneInvocation` | packages/agentship-langgraph/src/agentship_langgraph/templates/graph_supervisor.py:155-157 | a crash loses at most one invocation of a specialist routed once |
| `SupervisorRuns.StaffedTurnsAnswer` | packages/agentship-langgraph/src/agentship_langgraph/templates/graph_supervisor.py:246-277 | with known specialists and strategies and a human decision, a turn ends with an answer |
| `SupervisorRuns.RetryKeepsSuccesses` | packages/agentship-langgraph/src/agentship_langgraph/templates/graph_supervisor.py:147-154 | a retry pass keeps every place and touches only eligible failures |
| `SupervisorRuns.SuccessesStay` | packages/agentship-langgraph/src/agentship_langgraph/templates/graph_supervisor.py:166-167 | a success stays at its place in every later checkpoint and is never listed for a retry |
| `SupervisorRuns.WinnersAnswered` | packages/agentship-core/src/agentship/primitives/conflict_resolver.py:84-86 | the winner is a routed specialist that really answered with that output |
| `SupervisorAnswers.MergeNames` | packages/agentship-langgraph/src/agentship_langgraph/templates/graph_supervisor.py:166 | merging into nothing lists each name once, in order of first mention |
| `SupervisorAnswers.EveryCheckpointIsFaithful` | packages/agentship-langgraph/src/agentship_langgraph/templates/graph_supervisor.py:246-277 | at every checkpoint of any run with crashes: the route is that of the label if it is a configured intent with a route and the default one otherwise, results stand one per specialist in first-pass order, the merge is over those results, the answer renders the merge, and a pending write was decided first where that is asked for |
| `SupervisorAnswers.LabelPicksTheRoute` | packages/agentship-langgraph/src/agentship_langgraph/templates/graph_supervisor.py:115-134 | the two cases of the route, at every checkpoint past the lookup |
| `SupervisorAnswers.AnswersVoiceTheResults` | packages/agentship-langgraph/src/agentship_langgraph/templates/graph_supervisor.py:208-219 | an answer is there exactly at the end, and says of the results as they stand: that nobody succeeded, or of the preferred usable result its text, its one output rendered, or all its output |
| `SupervisorAnswers.OnlyAFirstPassOvercharges` | packages/agentship-langgraph/src/agentship_langgraph/templates/graph_supervisor.py:146-165 | a `single` turn holds at most one result, so only its first pass can charge a specialist it does not run |
| `SupervisorAnswers.ChargedAndNeverRun` | packages/agentship-langgraph/src/agentship_langgraph/templates/graph_supervisor.py:157-165 | a `single` route of two: after three commits the second is charged one attempt and has never run |
| `IndependentRetries.ParallelTurnsAreIndependentRetries` | packages/agentship-langgraph/src/agentship_langgraph/templates/graph_supervisor.py:139-243 | in a parallel turn on the route of its label, whatever crashes, the loop leaves exactly the outcomes of its specialists each retried alone, in route order, and the answer voices those |
| `IndependentRetries.RetryRuns` | packages/agentship-langgraph/src/agentship_langgraph/templates/graph_supervisor.py:146-166 | a parallel retry pass replaces a result by one more run of that specialist, and charges it, exactly if it may be retried |
| `SupervisorAnswers.NoAnswerBeforeTheDecision` | packages/agentship-langgraph/src/agentship_langgraph/templates/graph_supervisor.py:235-243 | with confirmation on, a pending write gets no answer before its decision |
| `SupervisorAnswers.PlainAnswersAreVerbatim` | packages/agentship-langgraph/src/agentship_langgraph/templates/graph_supervisor.py:208-219 | a winner that answered with plain text is quoted verbatim |
| `SupervisorAnswers.DecisionOnlyDelays` | packages/agentship-langgraph/src/agentship_langgraph/templates/graph_supervisor.py:189-205 | approved or rejected, every checkpoint and the answer are otherwise the same |
| `Stream.SplitReasoning` | packages/agentship-langgraph/src/agentship_langgraph/engine.py:60-100 | the loop splits a message into its reasoning and answer texts (what each block adds to them is `StreamReading.BlocksAddUp`) |
| `Stream.StreamGraph` | packages/agentship-langgraph/src/agentship_langgraph/engine.py:828-930 | the flag-driven loop emits the transcript specified over the whole event list; a raise emits its live prefix and maps provider errors |
| `Stream.ContentIsTheAnswer` | packages/agentship-langgraph/src/agentship_langgraph/engine.py:766-773 | content is the chunk answers or, without any, the last whole reply: never both |
| `StreamReading.BlocksAddUp` | packages/agentship-langgraph/src/agentship_langgraph/engine.py:78-100 | a bare string and the text of a text block are added to the answer; a thinking block adds to the reasoning its own field, else `thinking`, else `text`; other blocks add nothing; out-of-band reasoning comes last |
| `StreamReading.PlainMessagesAreAnswers` | packages/agentship-langgraph/src/agentship_langgraph/engine.py:75-77 | a plain message is all answer; no content and no blocks are no answer |
| `StreamReading.MessagesAdd` | packages/agentship-langgraph/src/agentship_langgraph/engine.py:885-918 | a hidden or foreign message shows nothing, a chunk its thoughts and then its answer, a whole reply with content its thoughts only |
| `StreamReading.ContentOutright` | packages/agentship-langgraph/src/agentship_langgraph/engine.py:902-927 | if any visible chunk speaks, the content is what the chunks say; else what the last visible reply stands for, its answer or its blocks; else nothing |
| `StreamReading.TextReachesTheClient` | packages/agentship-langgraph/src/agentship_langgraph/engine.py:891-901 | the text of one more text block in a visible chunk ends up in the content, behind everything shown before |
| `StreamReading.LastWordOnInterrupts` | packages/agentship-langgraph/src/agentship_langgraph/engine.py:855-865 | the interrupts last reported count, and nothing else changes them |
| `StreamReading.ToolsAreReported` | packages/agentship-langgraph/src/agentship_langgraph/engine.py:870-883 | the client hears of each message its tool result and then its calls, in order, with names and arguments |
| `StreamReading.NothingElseIsReported` | packages/agentship-langgraph/src/agentship_langgraph/engine.py:855-889 | messages, interrupts and bookkeeping add no tool event |
| `Stream.EndsOnce` | packages/agentship-langgraph/src/agentship_langgraph/engine.py:926-930 | exactly one `done`, last; a `paused` right before it if and only if interrupts were last reported |
| `Stream.LiveOnlyGrows` | packages/agentship-langgraph/src/agentship_langgraph/engine.py:847-918 | what was emitted is never taken back |
| `Stream.UnthoughtSplits` | packages/agentship-langgraph/src/agentship_langgraph/engine.py:63-66 | without its thoughts a message has the same answer and no reasoning |
| `Stream.ContentIgnoresReasoningIff` | packages/agentship-langgraph/src/agentship_langgraph/engine.py:902-918 | the content is independent of all reasoning if and only if the fallback is not a reply of blocks with thoughts and no answer |
| `Stream.AnsweredRepliesNeverLeak` | packages/agentship-langgraph/src/agentship_langgraph/engine.py:902-913 | it is, when every whole reply carries some answer text |
| `Recorder.RecordingObserver.Record` | packages/agentship-core/src/agentship/observability/recorder.py:116-123 | a new span is linked under its parent, or as a root, and nothing else changes |
| `Recorder.RecordingObserver.Enter` | packages/agentship-core/src/agentship/observability/recorder.py:111-124 | a block opens under the current span and becomes current |
| `Recorder.RecordingObserver.Leave` | packages/agentship-core/src/agentship/observability/recorder.py:125-135 | only a failure marks the span; its task gets back the span it had |
| `Recorder.RecordingObserver.StartSpan` | packages/agentship-core/src/agentship/observability/recorder.py:137-165 | a manual open nests under the given span or the current one and does not become current |
| `Recorder.RecordingObserver.Fork` | packages/agentship-core/src/agentship/observability/recorder.py:9-10 | a task starts from a copy of its creator's current span; other tasks keep theirs |
| `Recorder.RecordingObserver.Freeze` | packages/agentship-core/src/agentship/observability/recorder.py:49-57 | freezing the heap tree gives the tree of the parent links; the node has the name and the status of its span |
| `Recorder.RecordingObserver.Roots` | packages/agentship-core/src/agentship/observability/recorder.py:195-198 | the frozen roots are the forest of the parent links |
| `FrozenWalk.NodesShowTheirSpans` | packages/agentship-core/src/agentship/observability/recorder.py:49-57 | each node of the frozen walk has name and status of its span, and as children, in opening order, the nodes the walk meets for the spans opened under it |
| `FrozenWalk.EverySpanIsMet` | packages/agentship-core/src/agentship/observability/trace_view.py:50-54 | every span has one place in that walk |
| `FrozenWalk.FailuresAreSeen` | packages/agentship-core/src/agentship/observability/recorder.py:125-135 | after any program a node of the frozen walk is failed if and only if its span was opened by a block left by a failure |
| `SpanForest.EachSpanOnce` | packages/agentship-core/src/agentship/observability/trace_view.py:50-54 | the walk of a recording meets every opened span exactly once |
| `SpanForest.WalkIsOpeningOrderIff` | packages/agentship-core/src/agentship/observability/trace_view.py:50-54 | the preorder walk is the opening order if and only if each span opens inside the previous one, an enclosing one, or as a root |
| `WalkOrder.PrecedesIsBefore` | packages/agentship-core/src/agentship/observability/trace_view.py:50-54 | the walk meets a span before another that it holds, or that sits on a younger branch |
| `WalkOrder.ChosenWalkedInOrderIff` | packages/agentship-core/src/agentship/observability/trace_view.py:56-64 | the walk meets chosen spans in opening order if and only if of every two the older holds the younger or sits on the older branch |
| `RecorderDriving.Perform` | packages/agentship-core/src/agentship/observability/recorder.py:111-165 | one task performing any program of blocks, manual opens, raises and catches records exactly its tape and restores every current span |
| `RecorderDriving.Replay` | packages/agentship-core/src/agentship/observability/recorder.py:107-165 | many tasks, spawned and interleaved in any way on one recorder, record exactly the tape of the interleaving |
| `Interleaving.TasksMirrorThemselves` | packages/agentship-core/src/agentship/observability/recorder.py:9-10 | at every point of every interleaving each task's spans have the parents, names and marks they would have had alone, its outermost ones hanging on the span it inherited |
| `Interleaving.TasksRunTheirOwnPrograms` | packages/agentship-core/src/agentship/observability/recorder.py:9-10 | tasks that each run a program get the spans of that program, and their current span back |
| `RecorderRuns.WalkOfForest` | packages/agentship-core/src/agentship/observability/trace_view.py:50-54 | walking the frozen roots yields the tree of each opened span once |
| `RecorderRuns.ToolCallsFilter` | packages/agentship-core/src/agentship/observability/trace_view.py:74-78 | `tool_calls` lists of the walk exactly the nodes whose name starts with `tool.`, in its order |
| `RecorderRuns.RunRecordsAForest` | packages/agentship-core/src/agentship/observability/recorder.py:116-123 | whatever a program does, parents are earlier spans and are never changed |
| `RecorderRuns.AmbientProgramsReplay` | packages/agentship-core/src/agentship/observability/trace_view.py:74-78 | for programs without explicit parents the walk is the opening order and `tool_calls` the execution order |
| `RecorderRuns.ToolCallsInExecutionOrderIff` | packages/agentship-core/src/agentship/observability/trace_view.py:74-78 | `tool_calls` is the walk of the tool spans, and that is the order of the calls if and only if of every two the older holds the younger or sits on the older branch |
| `RecorderRuns.ToolNamesInExecutionOrder` | packages/agentship-core/src/agentship/observability/trace_view.py:74-78 | in that case the names come out as the tools were called |
| `RecorderRuns.LateToolIsListedEarly` | packages/agentship-core/src/agentship/observability/trace_view.py:75 | a program whose second tool call is listed first |
| `RecorderRuns.FailureMarksExactly` | packages/agentship-core/src/agentship/observability/recorder.py:125-135 | after any program the marked spans are exactly those opened by a block whose body was left by a failure |
| `RecorderRuns.AbandonmentMarksNothing` | packages/agentship-core/src/agentship/observability/recorder.py:127-129 | abandoning a stream marks no span |
| `Tracing.ObservabilityCallback.On` | packages/agentship-langgraph/src/agentship_langgraph/tracing.py:224-414 | each handler changes the three maps and the spans as specified |
| `Tracing.ObservabilityCallback.OpenSpan` | packages/agentship-langgraph/src/agentship_langgraph/tracing.py:186-200 | opens under the parent run's span or the ambient one; a failing observer changes nothing |
| `Tracing.ObservabilityCallback.CloseSpan` | packages/agentship-langgraph/src/agentship_langgraph/tracing.py:207-213 | forgets the run and ends its span if it had one |
| `Tracing.ObservabilityCallback.ErrorCloseSpan` | packages/agentship-langgraph/src/agentship_langgraph/tracing.py:215-220 | marks the span failed before closing it |
| `Tracing.InvAlways` | packages/agentship-langgraph/src/agentship_langgraph/tracing.py:180-213 | after any events: the span and start maps have one domain, an open span is not ended, no span ends twice, parents are earlier spans |
| `Tracing.NothingLostIff` | packages/agentship-langgraph/src/agentship_langgraph/tracing.py:197 | every span is ended or open under its run if and only if no run id is reused while its span is open |
| `Tracing.RunsAreIndependent` | packages/agentship-langgraph/src/agentship_langgraph/tracing.py:186-220 | what the maps hold for a run depends on that run's events alone |
| `Tracing.MatchedRunsLeaveNothing` | packages/agentship-langgraph/src/agentship_langgraph/tracing.py:207-213 | once every run has started and ended once, no span and no start is kept, and a model id exactly for model calls whose span failed to open and that ended well |
| `Tracing.MatchedRunsEndEverySpan` | packages/agentship-langgraph/src/agentship_langgraph/tracing.py:207-213 | then every opened span was ended exactly once |
| `Tracing.FailuresAreMarked` | packages/agentship-langgraph/src/agentship_langgraph/tracing.py:215-220 | a run has a failed span exactly when it got a span and then failed |
| `Tracing.OpensUnderTheParentRun` | packages/agentship-langgraph/src/agentship_langgraph/tracing.py:196-197 | a span hangs under the open span of its parent run, or under the ambient one if there is none, and its start time is kept under its run |
| `Tracing.StartsAreTraced` | packages/agentship-langgraph/src/agentship_langgraph/tracing.py:380-404 | a start opens a span if and only if it is a model call, a tool call or a node's own runnable and not a pure-function node, and the observer can; a model call leaves its model id either way |
| `Tracing.TracesAreForests` | packages/agentship-langgraph/src/agentship_langgraph/tracing.py:158-160 | spans built from interleaved events form a forest in which each has one place |

## Left out

- Postgres, psycopg, LangGraph, LangChain and OpenTelemetry internals: the ledger is a map with atomic committed writes, the advisory lock a table whose entries die with the session, a checkpoint an atomic commit per node.
- The final `sha256` of a key and the `blake2b` of a lock: the key is studied up to the hashed text, the lock's hash is an arbitrary function.
- A Postgres lock session that drops while its worker lives on: in `WriteAhead` a lock ends with its worker. The in-process lock, which outlives a killed owner, is in `ThreadLock`.
- Two concurrent guarded calls of one key by one worker: a worker has at most one call per key under way, which distinct model call ids provide.
- The connection handling of `PostgresLedger` and `ThreadLock`, and `open_turn_state` binding the ledger to the turn's store: one flag of the configuration decides whether the ledger outlives the process.
- Floats, non-string object keys and the interpreter's limit on integer digits in `canonical_json`; values it cannot serialise raise and get no key.
- White space, numbers other than integers, and duplicate keys in the JSON reader: it reads what the printer can write, with all escapes of section 7 of RFC 8259.
- Supervisor state carried over from an earlier turn on the same thread: a turn starts with empty results and attempts.
- Per-specialist timeouts as time: a run that times out is one of its possible outcomes, and no limit is configured, as in the supervisor.
- Confidences that are neither a number nor absent, and NaN.
- Specialists that depend on anything but their name, attempt number and text: identical resume is about those that do not.
- Prompts, classification hints and the declarative derivation of a graph configuration: decided by reading one function.
- Floating-point rounding: times, rates and tokens are reals.
- Span attributes, latency, cost, redaction and content capture: a span here is its name, place and status.
- The exact quoting Python's `repr` gives a tool name in a message, and the type name inside a failure text, which is part of the raised message.
- Resume tokens, history amendment, voice, the CLI and the HTTP routes: I/O and glue.
- A span of one task given to another as an explicit parent: in `Interleaving` explicit parents name a task's own spans; parents by run id are in `Tracing`.
- An abandoned client stream in the engine: the transducer is run to the end of the event list or to a raise. In the recorder an abandoned block is modelled.
- Tracing.Observer.StartSpan: a raising `set_attributes` or `end` of the observer is not modelled, only a failing open.
- CallOnce.Ledger.Record: a store that fails to write is a raise inside a call in `WriteAhead`, not in the sequential method.
