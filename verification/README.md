# Verified models of the worker runtime and its metrics library

This project models, in Dafny, the protocols and normal forms of the repository that no finite
set of examples settles, and proves them for every input, every run or every reachable state.

**Two-shard histogram** (`Buckets`, `HistogramProtocol`, `HistogramTallies`, `HistogramProof`,
`HistogramTheorems`, `HistogramProgress`, `LocalHistogram`). Observers reserve a slot in a packed 64-bit word (one
bit selects the hot shard, 63 bits count) and then update bucket, sum and shard count in
separate steps; flushers do the same with a batch; a collector flips the bit, spins, drains and
merges. The model is a transition system with any number of observers and flushers, each with
its own program counter, weak compare-and-swaps that may fail spuriously, and the real
wrap-around of the word. Every snapshot is the sequential histogram of exactly the observations
reserved before its flip. The guarantee needs the total of all increments to stay below 2^63:
from there on the carry flips the bit, and `CarryDefeatsSpin` shows a collector leaving its spin
loop too early and returning a wrong snapshot. Below it no call can be stuck: from every reachable
state all calls under way can return. `LocalHistogram` adds the unsynchronized objects.

**URL parser and printer** (`UrlText`, `UrlParser`, `UrlNormal`, `UrlShape`, `UrlPrinter`,
`UrlRoundTrip`, `UrlTheorems`, `UrlStart`, `UrlAuthority`, `UrlPath`, `UrlDotSegments`,
`UrlReference`, `UrlResolution`, `UrlSetters`, `UrlComponents`, `UrlReading`, `UrlMeaning`,
`UrlObject`). All 19 states, the cursor that moves backwards,
state overrides, and the `href` printer, on ASCII text. Termination, normal form, round trip, path
folding against section 5.2.4 of RFC 3986, and the object whose fields the loop updates.
`UrlComponents` says without a state machine what an input means under a base, every component as a
stretch of text between delimiters, and `UrlMeaning` proves that the state machine computes exactly
that, for every input and every base (`ParserComputesMeaning`). Two
results are negative. `new URL('file:...')` without a base throws on exactly the inputs of
`ThrowsIff`. A `file` reference resolved against a base of another scheme can take that base's
authority and path. `UrlResolution` follows chains of such resolutions: it says what every chain
produces, when a path comes out empty (`PathOfChain`), and, in terms of the input and the base
alone, when the printed form of the result parses back to it (`ResolvedRoundTrip`). `UrlSetters`
says what every setter stores and exactly when a normal URL stays normal, for one assignment and for
sequences of them; `search` and `pathname` always keep it so, the others do not.

**Worker execution protocols.** `Generations`, `GenerationProof`, `GenerationProgress`: isolate
generations against delayed remote termination. `IsolatePool`, `IsolatePoolProof`,
`IsolatePoolProgress`: permits and the thread stack under cancellation. `ExecutionTokens`, `CpuBudget`: execution tokens, timer messages and the budget; a
timer does outlive its token, exactly when `run` returns an error out of a script, until the cleanup
(`TimerNeedsTokenUnless`). `IoProtocol`, `IoProof`, `IoTheorems`, `IoHistory`, `IoProgress`: the
callback slab, the call limit, the task processor and remote buffers held by weak references;
`RemoteBuffers` is the buffer set as an object.

**Indexes that must agree with a simple specification.** `Registry`: registering and
unregistering collectors; unregistering a collector whose sum collides with another one breaks
the invariant under the exact condition of `UnregisterKeepsIff`. `Gathering`: merging, sorting
and labelling of families. `Routing`: the reverse scan, the longest prefix and the SQL query.
`ReadyPool`: the proxy's queue of ready instances. `TextLabels`: escaping and the label block.

`Wrappers`, `Runs` and `Bags` hold what the models share: option and result types, runs of a
partial step function with their induction principles, one of them for reaching a state by steps that
lower a rank, and multisets gathered from sequences.

## How the models read

A protocol is a `State`, an `Action` and a function `Next(s, a)` that is `None` when the action
is not enabled; `RunFrom` performs a sequence of actions, so a theorem about `RunFrom` is about
every interleaving. Failed `expect`s, `unwrap`s and slab removals are explicit states that the
theorems show unreachable. Code that updates fields in place is a class whose methods are tied
to the functions the theorems are about. Durations and instants are natural numbers, sums and
bucket bounds are reals.

Where the code and its comments differ, the models follow the code. In particular
`rusty-workers-proxy/src/sched.rs:75` calls the queued instances ready to run, while the
collection only guarantees the head of the queue (`ReadyPool.OnlyTheHead`); and
`prometheus/src/registry.rs:294-297` promises to unregister the collector that equals the
argument, while the code removes whatever is stored under the argument's sum
(`Registry.CollidingSums`).

## Model

| member | source | states |
|---|---|---|
| Buckets.CheckAndAdjustBuckets | prometheus/src/histogram.rs:43-66 | accepts exactly the strictly increasing bounds (the default ones when none are given), drops a final infinity and nothing else, and otherwise names the first offending pair |
| Buckets.RunningCountIsCumulative | prometheus/src/histogram.rs:374-381 | with accepted bounds, first-match bucketing followed by the running sum counts the observations at or below each bound |
| Buckets.HistogramIsMonotone | prometheus/src/histogram.rs:439-455 | cumulative counts are non-decreasing and never exceed the sample count |
| HistogramProof.ReserveKeepsAccounts | prometheus/src/histogram.rs:259-269 | reserving keeps shard accounting and the packed word while the total stays below 2^63 |
| HistogramProof.AddBucketKeepsAccounts | prometheus/src/histogram.rs:373-381 | one bucket update of an observer or flusher moves exactly that work from "still to do" to its shard |
| HistogramProof.ExchangeSumKeepsAccounts | prometheus/src/atomic64.rs:108-122 | a compare-and-swap on the sum, spurious failure included, adds the operation's sum once or not at all |
| HistogramProof.AddOpCountKeepsAccounts | prometheus/src/histogram.rs:384-385 | the final count update marks the operation finished on its own shard |
| HistogramProof.FlipKeepsAccounts | prometheus/src/histogram.rs:243-247 | flipping the bit turns the hot shard into the cold one with all operations reserved so far on it |
| HistogramProof.SpinEndsIffColdIsQuiet | prometheus/src/histogram.rs:417-427 | the cold count equals the count read at the flip if and only if every operation before the flip has finished |
| HistogramProof.SwapBucketKeepsAccounts | prometheus/src/histogram.rs:446-446 | draining a cold bucket keeps the books of both shards and the collector |
| HistogramProof.MergeBucketKeepsAccounts | prometheus/src/histogram.rs:447-449 | merging a drained bucket loses nothing and extends the cumulative counts correctly |
| HistogramProof.MergeCountKeepsAccounts | prometheus/src/histogram.rs:458-458 | adding the overall count to the hot shard keeps the accounts |
| HistogramProof.ExchangeHotSumKeepsAccounts | prometheus/src/histogram.rs:459-459 | adding the drained sum to the hot shard keeps the accounts, with spurious failures |
| HistogramProof.UnlockKeepsAccounts | prometheus/src/histogram.rs:461-463 | releasing the collect lock leaves one shard with everything and one with nothing |
| HistogramTheorems.RunsAreAccounted | prometheus/src/histogram.rs:231-276 | shard accounting holds after every run whose total stays below 2^63 |
| HistogramTheorems.FreeLockIsAccounted | prometheus/src/histogram.rs:394-427 | while the collect lock is free the cold shard is zero with nobody on it, and the hot count plus the weight of the operations still under way is the 63-bit count |
| HistogramTheorems.SpinSeesQuietColdShard | prometheus/src/histogram.rs:405-427 | during the spin, the loop can end exactly when nobody is left on the cold shard, and nobody can join it |
| HistogramTheorems.WordDecodesIff | prometheus/src/histogram.rs:271-276 | after any run the word decodes to the parity of flips and the full count exactly while the total is below 2^63 |
| HistogramTheorems.CarryDefeatsSpin | prometheus/src/histogram.rs:259-263 | at a total of 2^63 a concrete run ends its spin loop before the operation of the cold shard has written anything, and returns a snapshot that is not the histogram of what was reserved before its flip |
| HistogramTheorems.SnapshotsAreLinearizable | prometheus/src/histogram.rs:394-464 | in every interleaving every snapshot is the sequential histogram of exactly the values that the run's reservations before that collection's flip were called with, in that order |
| HistogramTheorems.QuiescentShards | prometheus/src/histogram.rs:362-386 | with no call under way the hot shard holds the tally of everything the run was asked to observe and the other is zero |
| HistogramTheorems.BatchingIsInvisible | prometheus/src/histogram.rs:1026-1060 | runs that were asked to observe the same values in the same order, batched or direct, end in the same histogram |
| HistogramTheorems.BatchesAreNotSplit | prometheus/src/histogram.rs:1039-1043 | in every run, for every returned snapshot and every operation: the snapshot is the histogram of the values reserved up to some point of the run, and that point lies after all of the operation's values or before all of them |
| HistogramTheorems.SampleSumIsStoredSum | prometheus/src/histogram.rs:466-473 | the sum read under the lock is the hot shard's stored sum, not that of a shard about to be drained |
| HistogramProgress.CallsCanReturn | prometheus/src/histogram.rs:394-464 | from every state of every run below the limit, steps of the calls already under way lead to a state in which all of them have returned; no observer, flusher or collector is stuck, not even in the spin loop |
| LocalHistogram.SharedHistogram.IncBy | prometheus/src/histogram.rs:259-263 | fetch-and-add with wrap-around, returning the shard selected before it |
| LocalHistogram.SharedHistogram.Observe | prometheus/src/histogram.rs:362-386 | alone, a direct observation adds itself to the hot shard and to the word and changes nothing else |
| LocalHistogram.LocalHistogramCore.Observe | prometheus/src/histogram.rs:1000-1015 | the local counts, count and sum stay those of the pending values |
| LocalHistogram.LocalHistogramCore.Clear | prometheus/src/histogram.rs:1017-1024 | nothing is pending afterwards |
| LocalHistogram.LocalHistogramCore.Flush | prometheus/src/histogram.rs:1026-1060 | everything pending moves into the hot shard and the word, and nothing else changes |
| LocalHistogram.BatchIsObservations | prometheus/src/histogram.rs:1046-1056 | one batch leaves what the same observations one by one would leave |
| LocalHistogram.AbsorbAppend | prometheus/src/histogram.rs:1026-1060 | flushing in two batches or in one leaves the same shard |
| LocalHistogram.AbsorbKeepsTally | prometheus/src/histogram.rs:1046-1056 | a shard that holds a tally holds the longer tally after absorbing more values |
| UrlParser.IterateProgresses | librt/src/url.js:104-456 | every iteration in every state moves to a later state or moves the cursor right, within the input: with the lexicographic measure the loop terminates |
| UrlShape.LoopIsNormal | librt/src/url.js:104-456 | from any configuration of the right shape the loop ends in a normal URL or an invalid one |
| UrlTheorems.RoundTrip | librt/src/url.js:498-511 | for every input that parses without a base into a valid URL, parsing its printed form gives the same scheme, credentials, host, port, path, query and fragment |
| UrlTheorems.HrefIsIdempotent | librt/src/url.js:498-511 | printing what was parsed from a printed form gives that form again, valid or not |
| UrlPath.PathComponentFolds | librt/src/url.js:404-437 | the path state up to the end of input computes the fold over the split, escaped segments |
| UrlPath.SplitIsEscaped | librt/src/url.js:404-436 | splitting loses nothing: the joined segments are the escaped text |
| UrlDotSegments.FoldRemovesDots | librt/src/url.js:411-427 | that fold is the algorithm of section 5.2.4 of RFC 3986 run on the decoded segments with the inherited path as its output buffer |
| UrlDotSegments.FileFold | librt/src/url.js:423-425 | for `file` the only difference is that a first segment such as `c` followed by a bar is respelled with a colon |
| UrlDotSegments.PathIsDotFree | librt/src/url.js:404-437 | for every scheme, inherited path and text, what is on the path is the output of section 5.2.4, with the drive respelled for `file` |
| UrlPath.PathnameIsFold | librt/src/url.js:558-563 | the `pathname` setter skips one slash and folds the rest, changing nothing but the path |
| UrlPath.PathnameKeepsNormal | librt/src/url.js:558-563 | setting the path of a normal URL gives a normal URL whose printed form parses back to it |
| UrlPath.PathThenRest | librt/src/url.js:404-437 | without an override the path component up to the first query, fragment or end of input is that fold, and parsing goes on right after the delimiter |
| UrlStart.SchemeIsNamed | librt/src/url.js:107-139 | an input that begins with a letter, scheme characters and a colon is parsed from the colon on, with that scheme in lower case |
| UrlStart.NoSchemeIsReference | librt/src/url.js:142-178 | any other input is a reference read from its start, or invalid when there is no base of a scheme with authority |
| UrlStart.LoopIgnoresBase | librt/src/url.js:242-456 | from every state after the `relative` one, under `file` also from the slash, the base makes no difference and nothing throws |
| UrlStart.ThrowsIff | librt/src/url.js:190-240 | construction throws exactly on `file:` inputs without a base that go on with neither a slash nor a drive letter |
| UrlAuthority.TraceIsParse | librt/src/url.js:104-456 | parsing is the loop from any configuration that the parse passes through |
| UrlAuthority.HostBeginsInAuthority | librt/src/url.js:282-317 | in every parse, with any input, base and state override, each entry into the authority is followed by a rewind to just after its last `@`, or to where it began, never left of it |
| UrlReference.FileTakesFromBase | librt/src/url.js:190-240 | a `file` reference that begins with neither slash nor drive letter has the base's credentials, host and port, and the base's path or the reference's text folded onto the base's directory |
| UrlReference.FileStandsAlone | librt/src/url.js:202-240 | one that begins with a slash or a drive letter is normal, whatever the base |
| UrlReference.OwnSchemeStandsAlone | librt/src/url.js:136-139 | an input with its own scheme parses alike under any base of another scheme and under none |
| UrlResolution.ChainsAreResolvable | librt/src/url.js:481-492 | whatever a chain of resolutions produces, each against the result before, is normal, invalid, or a `file` URL with a well-formed authority, query and fragment and a path free of dot segments |
| UrlResolution.PathIsNormal | librt/src/url.js:190-240 | after every successful parse against such a base the path has no dot segment, and it is empty exactly when the base has none and the input is a `file` reference of nothing but a query or a fragment |
| UrlResolution.PathOfChain | librt/src/url.js:481-492 | the same for every chain of resolutions, said about its last two links |
| UrlResolution.BarSurvives | librt/src/url.js:415-427 | folding text onto a path leaves a drive spelled with a bar in front exactly when it was there and no `..` pops it |
| UrlResolution.NormalIff | librt/src/url.js:190-240 | a resolution gives a normal URL exactly under a condition on the input and the base |
| UrlResolution.RoundTripIff | librt/src/url.js:498-511 | a valid URL survives printing and parsing without a base exactly when it is normal |
| UrlResolution.ResolvedRoundTrip | librt/src/url.js:481-511 | what any input resolves to, against any such base, survives printing without the base exactly when the input is no `file` reference, or takes nothing from the base, or takes a plain authority and a path that exists and keeps no bar drive in front |
| UrlResolution.RoundTripOfChain | librt/src/url.js:481-511 | the same for the base at the end of any chain of resolutions |
| UrlResolution.FileOverBase | librt/src/url.js:190-240 | a `file:` input against any such base is valid with a path free of dot segments, empty exactly when the base has none and nothing but a query or a fragment follows |
| UrlResolution.FileOverBaseRoundTrip | librt/src/url.js:190-240 | it survives printing without the base exactly when it stands alone, or the base has neither credentials nor port, a host not spelled like a drive, and a path that the input's own segments leave without a bar drive in front |
| UrlResolution.CredentialsDoNotSurvive | librt/src/url.js:498-511 | whenever a `file` reference takes credentials or a port from the base, its printed form parses to something else |
| UrlMeaning.ParserComputesMeaning | librt/src/url.js:104-456 | for every input and every base, valid or not, construction gives exactly the components found by searching for delimiters, or throws where they cannot be had: scheme, credentials before the last at sign, host up to a colon outside brackets, digits of the port, path folded from its segments, escaped query, fragment |
| UrlMeaning.NetReferenceTakes | librt/src/url.js:190-260 | under any base of a scheme with authority other than `file`, a reference that does not begin with two slashes is valid and has scheme, credentials, host and port of the base; its path is the base's, or folded from the root after one slash, or folded onto the base's directory; its query is the base's exactly when it is empty or begins with a hash sign |
| UrlMeaning.CredentialsAreSplit | librt/src/url.js:282-310 | adding the credentials one character at a time splits them at the first colon and escapes both parts |
| UrlText.EscapeSpells | librt/src/url.js:56-81 | escaping leaves exactly the safe characters alone and writes every other as its code in two hexadecimal digits |
| UrlTheorems.TrimIsExact | librt/src/url.js:488-488 | trimming removes white space at both ends, all of it and nothing else |
| UrlSetters.AssignKeepsNormalIff | librt/src/url.js:520-593 | every setter leaves a normal URL normal exactly when its text fits: `pathname` and `search` always; `hash` if the text, tabs and line breaks aside, does not end in a space or form feed; `hostname` if there is a host without `@` or drive spelling and without an open bracket before a port; `host` if the port fits as well; `port` unless `file` or an open bracket forbids one; `protocol` if the scheme fits what the URL has |
| UrlSetters.AssignRoundTripIff | librt/src/url.js:498-593 | a result that is not invalid prints to a form that parses back to it exactly under that condition |
| UrlSetters.AssignmentsKeepNormalIff | librt/src/url.js:520-593 | a sequence of assignments leaves the URL normal after each of them exactly when every text fits the URL that its setter finds |
| UrlSetters.SpaceIsLost | librt/src/url.js:582-593 | on every normal URL, a fragment assigned with a space at its end does not come back |
| UrlSetters.SearchIsEscaped | librt/src/url.js:569-576 | the query becomes one question mark and the escaped text, and nothing else changes |
| UrlSetters.HashIsKept | librt/src/url.js:582-593 | the fragment becomes one hash sign and the text without blanks, or nothing for the empty text |
| UrlSetters.HostIsRead | librt/src/url.js:342-393 | the host is the text up to the first delimiter or colon outside brackets, in lower case; `host` goes on to the digits behind the colon, `hostname` does not; no host makes the URL invalid |
| UrlSetters.PortIsDigits | librt/src/url.js:548-552 | the leading digits become the port without leading zeros, unless they spell the default one |
| UrlSetters.ProtocolIsScheme | librt/src/url.js:520-524 | the scheme that the text begins with is stored in lower case, and nothing when there is none |
| UrlObject.JUrl.ReadCredentials | librt/src/url.js:298-311 | the loop over the buffer splits it at the first colon into escaped user name and password |
| UrlObject.JUrl.FinishSegment | librt/src/url.js:411-427 | popping and pushing do to the path what the table of dot segments says |
| UrlObject.JUrl.DoIterate | librt/src/url.js:105-455 | one iteration, by field updates, is the step of the state machine |
| UrlObject.JUrl.Parse | librt/src/url.js:92-457 | the loop terminates and leaves in the fields the URL that the state machine computes, or throws when it does |
| UrlObject.JUrl.Create | librt/src/url.js:481-492 | construction yields the object with the components that `Meaning` finds in the trimmed input, or nothing when parsing throws |
| UrlObject.JUrl.SetPathname | librt/src/url.js:558-563 | the setter changes the path as specified and keeps a normal object normal |
| UrlObject.JUrl.SetProtocol | librt/src/url.js:520-524 | the field updates leave the specified URL, normal exactly when the text fits |
| UrlObject.JUrl.SetHost | librt/src/url.js:530-534 | the field updates leave the specified URL, normal exactly when the text fits |
| UrlObject.JUrl.SetHostname | librt/src/url.js:540-544 | the field updates leave the specified URL, normal exactly when the text fits |
| UrlObject.JUrl.SetPort | librt/src/url.js:548-552 | the field updates leave the specified URL, normal exactly when the text fits |
| UrlObject.JUrl.SetSearch | librt/src/url.js:569-576 | the field updates leave the specified URL, normal exactly when the text fits |
| UrlObject.JUrl.SetHash | librt/src/url.js:582-593 | the field updates leave the specified URL, normal exactly when the text fits |
| UrlObject.JUrl.Href | librt/src/url.js:498-511 | the getter prints the fields, or the original text of an invalid object |
| IoTheorems.RunsKeepInvariant | rusty-workers-runtime/src/io.rs:115-227 | the invariant holds in every reachable state |
| IoTheorems.ResultsMeetTheirCallbacks | rusty-workers-runtime/src/io.rs:141-166 | each callback is handed out at most once and with the result of its own call, although indices are reused; slab removal and unwrapping never fail |
| IoTheorems.TokensAreDistinct | rusty-workers-runtime/src/io.rs:127-138 | indices in the queue, in running tasks and in the result channel are pairwise distinct and occupied by their own callbacks |
| IoTheorems.NoCallIsLost | rusty-workers-runtime/src/io.rs:180-227 | until the scope is dropped every issued call was answered or has exactly one token on its way |
| IoTheorems.QuietMeansDone | rusty-workers-runtime/src/io.rs:141-160 | when nothing is queued, running or answered, no callback is left in the slab |
| IoTheorems.TasksAreBounded | rusty-workers-runtime/src/io.rs:204-209 | running tasks plus free permits is the concurrency limit; the counted calls that the run issued plus the budget is the call limit |
| IoTheorems.CallLimitIsExact | rusty-workers-runtime/src/io.rs:114-138 | along every run at most the limit of counted calls is issued; a further one is issued exactly while fewer were, and otherwise changes nothing; a call that does not count is never refused |
| IoTheorems.BuffersSurvive | rusty-workers-runtime/src/remote_buffer.rs:27-34 | every remote buffer of a task, a result or a delivery is the only handle to an entry whose value is present |
| IoTheorems.CollectionIsExact | rusty-workers-runtime/src/remote_buffer.rs:66-83 | a collection, interleaved with tasks dropping buffers, removes all entries without a handle at its start and none with a handle at its end |
| IoTheorems.AskersAreHeard | rusty-workers-runtime/src/io.rs:231-253 | every awaited buffer request is in the channel and awaited by one task only |
| IoTheorems.FailedSendIsUndone | rusty-workers-runtime/src/io.rs:127-137 | a call that cannot be sent because the processor is gone leaves no callback behind; what it took from the budget stays spent |
| IoHistory.BuffersReachTheirAskers | rusty-workers-runtime/src/io.rs:231-253 | every task holds exactly the buffers allocated in answer to the requests of its own call, and awaits exactly its own requests that are still in the channel |
| IoHistory.ResultsCarryTheirBuffers | rusty-workers-runtime/src/io.rs:212-219 | every result carries exactly the buffers of its own task if that succeeded, and none otherwise; when its callback is about to be called all of them have been unwrapped |
| IoProgress.CallsCanBeAnswered | rusty-workers-runtime/src/io.rs:180-224 | from every state of every run, as long as the scope lives and the limits leave room, steps without new calls and requests lead to a state in which every issued call has been answered |
| RemoteBuffers.RemoteBufferSet.Allocate | rusty-workers-runtime/src/remote_buffer.rs:42-64 | a new entry with its value under a fresh address, or none when the memory check refuses |
| RemoteBuffers.RemoteBufferSet.Gc | rusty-workers-runtime/src/remote_buffer.rs:66-83 | the scan and the removals leave exactly the entries somebody can reach, unchanged |
| RemoteBuffers.RemoteBufferSet.Unwrap | rusty-workers-runtime/src/remote_buffer.rs:27-33 | the value is taken once; a lost entry and a second taking are told apart |
| GenerationProof.OnlyOwnTermination | rusty-workers-runtime/src/executor.rs:89-106 | while a job runs, a set terminate flag was set by the handle of that very job, created in the current generation |
| GenerationProof.JobsStartUnterminated | rusty-workers-runtime/src/isolate.rs:163-219 | a job starts with the flag clear, after recycling and after a restart |
| GenerationProof.TerminationTakesEffect | rusty-workers-runtime/src/executor.rs:89-106 | a termination call on the running job's handle has set the flag when it is about to return |
| GenerationProof.MutualExclusion | rusty-workers-runtime/src/executor.rs:90-91 | at most one thread is between taking and releasing an isolate's generation lock |
| GenerationProof.ReasonChangesOnce | rusty-workers-runtime/src/executor.rs:99-102 | along every run a termination reason changes only away from unknown, hence at most once |
| GenerationProof.TerminationIsJustified | rusty-workers-runtime/src/executor.rs:94-105 | a call given a reason that terminates, or has terminated, finds a reason recorded on its handle |
| GenerationProof.FirstReasonIsKept | rusty-workers-runtime/src/executor.rs:95-103 | in every run a handle's reason is that of the first call for a reason that made its recording step on it, and unknown exactly when there was none |
| GenerationProof.CallsAreAsked | rusty-workers-runtime/src/executor.rs:89-112 | the calls of a run are those that were started, in order, on the handle and for the reason they were started with |
| GenerationProgress.CallsCanReturn | rusty-workers-runtime/src/executor.rs:89-106 | from every state of every run any termination call can return: whoever is under the generation lock leaves it without waiting for anything |
| IsolatePoolProof.PermitMeansThread | rusty-workers-runtime/src/isolate.rs:83-115 | in every interleaving with cancellation, idle and borrowed threads are the pool, idle threads are at least the free permits, and nobody with a permit finds the stack empty |
| IsolatePoolProof.ThreadsAreExclusive | rusty-workers-runtime/src/isolate.rs:91-103 | no thread is with two callers, or with a caller and idle |
| IsolatePoolProof.PoolIsRestored | rusty-workers-runtime/src/isolate.rs:38-46 | when every call has finished all permits are free and all threads are idle |
| IsolatePoolProgress.AskersCanBeServed | rusty-workers-runtime/src/isolate.rs:83-115 | from every state of every run, whoever holds a permit or a thread can go on to give both back, after which any call that still asks can hold a thread |
| IsolatePoolProof.PermitFirstPanics | rusty-workers-runtime/src/isolate.rs:98-103 | with the two drops in the other order a concrete run of two callers and one thread panics |
| CpuBudget.TokensAreConserved | rusty-workers-runtime/src/semaphore.rs:17-43 | tokens in the channel plus held permits is constant, and at most that many workers execute JavaScript |
| CpuBudget.TimerNeedsTokenUnless | rusty-workers-runtime/src/executor.rs:300-358 | the timer of a worker whose channel is still open runs without a token exactly when some step of the run was the error return of that worker out of a script and its cleanup has not followed |
| CpuBudget.TimerOutlivesToken | rusty-workers-runtime/src/executor.rs:321-327 | a script that throws during initialization reaches that state |
| CpuBudget.WorkersAlternate | rusty-workers-runtime/src/executor.rs:300-435 | every worker of every run sends alternating start and stop messages, resets only while stopped, holds a permit exactly between taking and giving back a token, and until it returns has its timer running exactly between a start and the next stop |
| CpuBudget.MonitorMeasures | rusty-workers-runtime/src/runtime.rs:151-174 | the monitor's deadline and budget are functions of the running time since the last reset alone |
| CpuBudget.BudgetIsRunningTime | rusty-workers-runtime/src/runtime.rs:159-173 | after every stop the budget is what running time has left of it, not below zero, and the kill branch is ready exactly when the running time has reached the initial budget |
| CpuBudget.WorkersAreMetered | rusty-workers-runtime/src/executor.rs:493-503 | the same, budget after a stop and kill branch, for what any worker of any run has sent, at whatever instants the monitor handles it |
| CpuBudget.MonitorTask | rusty-workers-runtime/src/runtime.rs:146-196 | on messages sent at given instants: every message is handled in order, not before it was sent, and not if it was sent when the timer branch alone was ready; the monitor kills only at an instant from the deadline on, at once unless a message is waiting, and never watches to the end with the deadline passed |
| CpuBudget.NothingAfterTheDeadline | rusty-workers-runtime/src/runtime.rs:154-193 | of what a worker sends, no message sent strictly after the deadline is ever handled |
| CpuBudget.RequestsStartFull | rusty-workers-runtime/src/executor.rs:330-356 | in every run a worker has sent one reset for its script and one for each completed request, the last possibly still to come, and takes up a request with the full budget |
| CpuBudget.KilledWhenSpent | rusty-workers-runtime/src/runtime.rs:185-193 | the kill branch can be taken at an instant exactly when the script has used up its budget by then |
| CpuBudget.LateStopLeavesNothing | rusty-workers-runtime/src/runtime.rs:159-173 | a stop handled although the deadline had passed leaves a budget of zero: the kill branch is ready again at the instant of the next start, unless a reset comes first |
| ExecutionTokens.Semaphore.AcquireTimeout | rusty-workers-runtime/src/semaphore.rs:25-28 | a permit exactly when a token is there, tokens and permits conserved |
| ExecutionTokens.Semaphore.DropPermit | rusty-workers-runtime/src/semaphore.rs:39-43 | the token goes back |
| Registry.SumOfSet | prometheus/src/registry.rs:78-83 | the wrapping sum depends only on the set of identifiers, not on order or repetition |
| Registry.RegisterIff | prometheus/src/registry.rs:56-102 | registration succeeds exactly when identifiers are distinct and new, dimension hashes agree with the names bound so far, and nothing is stored under the sum |
| Registry.RegisterError | prometheus/src/registry.rs:56-102 | a failed registration reports what is wrong with the first descriptor that does not fit, a registered identifier before a conflicting name before a repeated identifier, or the occupied sum when all fit |
| Registry.RegisterKeeps | prometheus/src/registry.rs:51-103 | any registration, failed or not, keeps identifier sets disjoint, their union as `desc_ids`, and each collector under its sum |
| Registry.UnregisterKeepsIff | prometheus/src/registry.rs:105-129 | a successful unregistration keeps that invariant exactly when, among the registered identifiers, the argument names those of the collector stored under its sum |
| Registry.CollidingSums | prometheus/src/registry.rs:115-124 | three collectors and a fourth whose sum collides with one of them break the invariant |
| Registry.RunsStayValid | prometheus/src/registry.rs:51-129 | after any run over collectors without colliding sums the invariant holds |
| Registry.DimHashesNeverChange | prometheus/src/registry.rs:63-76 | along every run, collisions or not, a name once bound keeps its dimension hash |
| Registry.FailureChangesNothing | prometheus/src/registry.rs:56-120 | a failed call leaves collectors and identifiers unchanged |
| Registry.UnregisterUndoes | prometheus/src/registry.rs:105-129 | unregistering any collector with the same identifiers undoes a registration except for bound names |
| Registry.RegistryCore.Contains | prometheus/src/registry.rs:39-49 | true exactly when some identifier is registered |
| Registry.RegistryCore.Register | prometheus/src/registry.rs:51-103 | the loop, binding names as it goes, ends in the specified state with the specified error |
| Registry.RegistryCore.Unregister | prometheus/src/registry.rs:105-129 | the two loops end in the specified state with the specified error |
| Gathering.CompareIff | prometheus/src/registry.rs:166-193 | the comparator is negative exactly for fewer labels, or as many and a lexicographically lower value at the first difference, or the same values and a smaller timestamp |
| Gathering.ComparatorIsPreorder | prometheus/src/registry.rs:166-193 | the comparator is total, antisymmetric in sign and transitive, and zero exactly for equal label values and timestamps |
| Gathering.SortIsStable | prometheus/src/registry.rs:165-194 | metrics that compare equal keep their order |
| Gathering.LabelsKeepOrder | prometheus/src/registry.rs:206-222 | appending the common labels does not change any comparison |
| Gathering.ExpectedIgnoresOrder | prometheus/src/registry.rs:134-159 | the metrics collected under a name do not depend on the iteration order of collectors |
| Gathering.MergeAll | prometheus/src/registry.rs:134-159 | merging by name, with empty families pruned, keeps under each name exactly the collected metrics in the order of collection, and the help text of the first family |
| Gathering.WriteOut | prometheus/src/registry.rs:196-226 | families leave in lexicographically ascending order of unprefixed names, one for each name |
| Gathering.Gather | prometheus/src/registry.rs:131-227 | output families have lexicographically ascending unprefixed names, one per name with metrics, the first family's help text, and exactly the collected metrics with the common labels appended, none after one that it is below |
| Routing.LookupSubmappings | rusty-workers-proxy/src/sched.rs:740-751 | the reverse scan yields the application of the longest key that is a prefix of the path, and nothing exactly when no key is |
| Routing.LikeIsPrefixIff | rusty-workers/src/db.rs:201-204 | the query's pattern for a key means "starts with the key" on every path exactly when the key has no wildcard and no backslash |
| Routing.QueryIsLongestPrefix | rusty-workers/src/db.rs:195-207 | on routes without wildcards the query's answer is the longest prefix, or none when no key is one |
| ReadyPool.StaleIsLeast | rusty-workers-proxy/src/sched.rs:123-144 | the collection takes the shortest head after which the queue is within its limit and begins with a usable instance |
| ReadyPool.FreshIff | rusty-workers-proxy/src/sched.rs:123-144 | for every queue, the collection leaves only usable instances exactly when, among the last ones up to the limit, no usable one stands before an unusable one |
| ReadyPool.OnlyTheHead | rusty-workers-proxy/src/sched.rs:133-143 | a queue on which that condition fails: an expired instance behind a usable one stays |
| ReadyPool.AppState.GcReadyInstances | rusty-workers-proxy/src/sched.rs:123-144 | exactly that head moves, in order, to the terminate queue |
| ReadyPool.AppState.PoolInstance | rusty-workers-proxy/src/sched.rs:146-155 | the instance goes to the end of the queue or, dropped, to the terminate queue; then exactly the stale head is terminated, in order; no instance is lost |
| ReadyPool.AppState.GetInstance | rusty-workers-proxy/src/sched.rs:157-162 | the stale head is terminated; the first usable instance is handed out with its time refreshed, or none is left |
| TextLabels.EscapeIsBijective | prometheus/src/encoder/text.rs:253-287 | in both quote modes escaping and unescaping are inverse to each other |
| TextLabels.EscapedStaysOnLine | prometheus/src/encoder/text.rs:253-287 | escaped text contains no line feed |
| TextLabels.FindFirstOccurence | prometheus/src/encoder/text.rs:245-251 | the first special character, or none exactly when there is none |
| TextLabels.EscapeString | prometheus/src/encoder/text.rs:258-287 | the loop after the copied head, and the path that copies nothing, both give the escaped text |
| TextLabels.Writer.LabelPairsToText | prometheus/src/encoder/text.rs:212-243 | the block of all pairs with the additional label last is appended, or nothing without labels |
| TextLabels.BlockIsRead | prometheus/src/encoder/text.rs:212-243 | a reader that splits at unescaped quotes recovers exactly the pairs, for any values and valid names, and leaves the rest of the line |
| TextLabels.BlockIsUniquelyReadable | prometheus/src/encoder/text.rs:212-243 | equal lines have equal labels, the additional one included |

## Left out

- Characters outside ASCII, lone surrogates and internationalized host names: `encodeURIComponent` and `toLowerCase` are modelled on ASCII only.
- Ports of 2^53 and more, where JavaScript prints rounded numbers: the model's numbers are exact.
- The `href` setter: it parses without trimming, so its result need not be normal; only the parse itself is modelled.
- A base passed as a string: it is parsed first, which the model leaves to the caller.
- Rounding, NaN and infinite sums in the histogram: sums and finite bounds are reals.
- Memory orderings: atomics are sequentially consistent, weak compare-and-swap may still fail.
- The 64-bit width of shard counts and buckets is modelled in `HistogramProtocol` only: in `LocalHistogram` the word wraps, while the counts and buckets of `Absorb` and `SharedHistogram` and the local `counts` and `count` are unbounded.
- LocalHistogram.SharedHistogram.Observe: stated for an object nobody else touches, because interleavings are the business of `HistogramProtocol`; the two are tied by `LocalHistogram.AbsorbKeepsTally`.
- ExecutionTokens.Semaphore.AcquireTimeout: the waiting itself is not modelled, a permit is there or not when it is asked for.
- Scheduling delays of the monitor: when its timer alone is ready it fires at once; a monitor polled late could find a message that was sent after the deadline.
- ReadyPool.AppState.GetInstance: a single caller; between the collection and the removal the original releases the lock.
- RemoteBuffers.RemoteBufferSet.Gc: weak counts are those of one instant; the interleaved scan is in `IoProtocol`.
- V8 itself, out-of-memory recovery, promises and script compilation: only the terminate flag, generations, timers and permits remain of them.
- Garbage of the URL object when `parse` throws: the constructor yields no object then.
- Network, RPC, SQL, archive and HTTP handling, including the proxy's retry loop around an instance: they carry no state that the proved properties depend on.
- SQL collations: `LIKE` compares characters exactly.
- Freshness of every pooled proxy instance: it holds exactly under the condition of `ReadyPool.FreshIff`, which nothing in the proxy establishes, because the queue is not ordered by activity.
- Child lookup of metric vectors: label values are hashed without a separator, so one child per label tuple does not hold.
- Counters, gauges, timers, memory pools, name validation beyond labels, bucket generators and load arithmetic: they would only add easy members.
