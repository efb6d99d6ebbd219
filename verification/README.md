# Concurrency and streaming in the performance handbook

A Dafny model of six small algorithms from the performance handbook, and proofs about whole runs of them:

- the two token rings of lab 0105 (`RoundRobin`, `ChannelRing`, `CondRing`);
- the document pipeline's stages and the chain that `main` builds from them (`Stage`, `Chain`,
  `ChainProgress`, `ChainRun`, `Pipeline`), with its generator (`LoadGenerator`);
- near-duplicate indexing by concurrent workers (`Index`, `Deduplication`) on top of tokenizing (`Fields`,
  `Tokenize`) and signed feature hashing (`Embed`, `Vectors`);
- wc-go's two line splitters and three counters over arbitrary bytes (`Utf8`, `LineProcessors`,
  `InputProcessors`);
- optimistic and pessimistic row updates of lab 0202 (`Optimistic`, `Pessimistic`);
- the reverse proxy's connection pool under its two engines (`ConnPool`, `Engine`).

`Sums`, `Wrappers` and `SeedData` are shared helpers. `dafny verify dfyconfig.toml` verifies everything.

## How it is built

What runs concurrently is a step system. `Init` is the state before anything has happened, `Enabled` says which
goroutine, worker or client can make which step, `Next` is the step, and `Exec(.., acts)` is the state a run
reaches, or `None` if one of its actions was not possible in its turn. "In every run" and "in every reachable
state" mean: for every `acts` with `Exec(.., acts).Some?`, so for every schedule and every interleaving. Fields
described as history (logs of who did what) are written by steps and read by none.

Beside each step system stands a class with the source's own fields. Its methods make one step in place and are
proved to do exactly what `Next` says, and a `Run` over any schedule is proved to produce a run of the step
system, so that the theorems about runs are theorems about the class. The run consists of every scheduled step
that is possible in the state reached so far (`Possible`, in a chain `Driven`); in particular a schedule that is a
run itself is followed as it is. The classes are `ChannelRing.Ring`, `CondRing.Ring`,
`ChainRun.ChainRun` (whose parts are `Stage.StageRun` objects, and which `Pipeline.Run` drives),
`Index.EmbeddingIndex`, `Optimistic.HotAccounts`, `Pessimistic.HotAccounts`, and in `Engine` the classes `Proxy`
(over a `ConnPool.Pool`) and `EpollEngine`. `Stage.StageRun.RunAlone`, `EmbeddingIndex.DedupAndIndex` with
`Deduplication.IndexAll`, and `EpollEngine.ServeInTurn` are the same objects used by one party only; the second is
a run of the step system as well, the other two have contracts of their own. Sequential code (the splitters, the
counters, tokenizing, embedding, the generator) is methods with the source's loops, each proved against a
specification that is not that loop.

The environment is a parameter or nondeterministic: the scheduler, the choice of a ready `select` case, the
moment of a cancellation, chunk boundaries of a reader, the hash function, case mapping and letter test, square
root, random draws, and the outcome of dialling.

## Main results

- Both rings refine one round-robin specification, of which the closed form is proved; the channel ring can
  always continue if and only if it has at least two participants; in the condition-variable ring no wakeup is
  lost, failed turn tests are at most (n - 1)(counter + 1), which is reached for every n and every counter, and
  every schedule keeps making hand-offs.
- A chain of stages accounts for every item in every reachable state, never sends on a closed channel, is stuck
  only when finished, and has no infinite runs for a finite input. A stage's function may depend on its earlier
  calls. Uncancelled and finished, a chain of pure stages before one that keeps state has called the latter with
  exactly the composed filter-map of what was sent and delivered exactly its results.
- End to end, under every schedule, whether the index's search is exact or not: the pipeline prints the index's
  answers to the embedded documents one by one, to a part of them at any time and to all of them at the end, and
  these are the reports of a run of the index's own step system. With the generator at the head, every document
  called for is held by the index or at 0.8 or more to one that is; under exact search those held are at
  similarities in [0, 0.8) of each other, and a duplicate is reported exactly if there is one. A document without
  a token, whose embedding is NaN, counts as at similarity 0 from everything here, by convention.
- With W index workers and exact search at most W stored documents are pairwise as similar as the threshold, and
  W is reached. One worker therefore keeps all stored documents apart. Without exact search, every report is
  still what the index called for as it was when it was searched; what may be reported, for duplicates and for
  others, is given by an if-and-only-if that does not mention how it is decided.
- Signed hashing can never cancel to a zero vector if and only if the dimension is even; then similarities lie in
  [0, 1]. An embedding is the raw vector over its length, so that similarity is the cosine of raw vectors. Tokenizing
  texts joined by any non-letter, or by a byte that cannot be decoded, concatenates tokens and adds raw vectors.
- For all byte strings, malformed UTF-8 included, and however a reader chunks them, wc-go's paths count the same
  lines, words and characters, but for one condition under which the two splitters differ, which is given exactly;
  and these totals are tied to the whole input, neither split nor (but for characters) decoded. The lines with what
  ended them put back are the input.
- C optimistic clients that do not retry finish at most C attempts for each update that takes effect, and this is
  reached for every C and every number of updates; each loss is charged to one win. The pessimistic script loses
  nothing and never deadlocks.
- The goroutine engine never loses or closes a pooled connection; the epoll engine serves at most as many clients
  as the pool had connections, and then starves.

## Where code and documentation differ

- `NewLoadGenerator` takes a buffer size and defaults it, but `Run` makes its channel with the literal 100
  (load_generator.go:52). The model follows the code: `Pipeline.SOURCE_BUFFER`.
- `processBytes` and `bufio.ScanLines` are meant to agree, but an input that ends in a carriage return keeps it on
  the byte path (input_processors.go:193-194) and loses it on the scanner path. `SplittersDiffer` and `PathsAgree`
  say exactly when and by how much, `LoneCarriageReturn` is the shortest such input.
- The comment in engine.go:77 says that returning the backend connection is left to `closeConn`, which does not
  do it (engine.go:165-173). `Engine` follows the code.
- With one participant the channel ring stops after one increment (pingpong.go:64-75): the goroutine would have
  to receive its own send.

## Model

| member | source | states |
|---|---|---|
| RoundRobin.BehaviourIff | labs/0105-go-locking-vs-channels/pingpong.go:58-94 | What both rings are for, in closed form: a log of turns is a behaviour of the specification exactly when its k-th entry is k mod n and the final state counts them and gives the turn to the next |
| ChannelRing.ReachableInv | labs/0105-go-locking-vs-channels/pingpong.go:64-75 | The invariant of every run: one token, at the goroutine whose turn it is or with the one that has just counted, everybody else receiving |
| ChannelRing.OneToken | labs/0105-go-locking-vs-channels/pingpong.go:64-75 | In every reachable state the token is with the starter or with exactly one goroutine |
| ChannelRing.StepRefines | labs/0105-go-locking-vs-channels/pingpong.go:68-75 | Each step is one turn of the specification by the goroutine that counts, or invisible to it |
| ChannelRing.Refines | labs/0105-go-locking-vs-channels/pingpong.go:64-75 | In every run the increments are a behaviour of the specification: the k-th is made by participant k mod n |
| ChannelRing.OnlyTheAction | labs/0105-go-locking-vs-channels/pingpong.go:68-75 | The ring leaves the scheduler at most one step, and has one exactly if there are two or more participants or nobody has counted yet |
| ChannelRing.NeverStuckIff | labs/0105-go-locking-vs-channels/pingpong.go:58-75 | Every run can be continued if and only if n >= 2 |
| ChannelRing.IncrementsPerStep | labs/0105-go-locking-vs-channels/pingpong.go:68-75 | A run of m steps has made exactly m / 2 increments |
| ChannelRing.AloneStopsAtOne | labs/0105-go-locking-vs-channels/pingpong.go:64-75 | With one participant the only runs are the prefixes of start, count; after both nothing is possible |
| ChannelRing.Ring.constructor | labs/0105-go-locking-vs-channels/pingpong.go:60-75 | The ring before its first step |
| ChannelRing.Ring.Take | labs/0105-go-locking-vs-channels/pingpong.go:68-75 | A goroutine's increment, or a send meeting its receive, changes the shared state exactly as the step system says |
| ChannelRing.Ring.Run | labs/0105-go-locking-vs-channels/pingpong.go:64-75 | Under any schedule what happens is a run, counted in the order 0, 1, .., n - 1, 0, ..; every scheduled step that is possible when its turn comes is taken, so a schedule that is a run is followed as it is |
| CondRing.ReachableInv | labs/0105-go-locking-vs-channels/pingpong.go:77-93 | The invariant of every run: mutex held by whoever is inside, no lost wakeup, counter and turn in step, and every failed test paid for |
| CondRing.MutualExclusion | labs/0105-go-locking-vs-channels/pingpong.go:83-91 | At most one goroutine is between Lock and Unlock (or Wait), and it is the mutex's holder |
| CondRing.WaitsOnlyForTheMutex | labs/0105-go-locking-vs-channels/pingpong.go:82-91 | A goroutine can step exactly if it is inside, or at the mutex with nobody inside |
| CondRing.NeverAsleepOnOwnTurn | labs/0105-go-locking-vs-channels/pingpong.go:84-89 | A goroutine in the wait set on its own turn is there only while the holder stands between the turn update and the Broadcast |
| CondRing.FailedTestsBound | labs/0105-go-locking-vs-channels/pingpong.go:84-86 | Over any run at most (n - 1)(counter + 1) turn tests fail |
| CondRing.FailedTestsReached | labs/0105-go-locking-vs-channels/pingpong.go:84-86 | For every n and m some run has made m increments and exactly (n - 1)(m + 1) failed tests |
| CondRing.StepRefines | labs/0105-go-locking-vs-channels/pingpong.go:82-91 | Each step is one turn of the specification by the goroutine that counts, or invisible to it |
| CondRing.Refines | labs/0105-go-locking-vs-channels/pingpong.go:80-93 | In every run the increments are a behaviour of the specification the channel ring refines too |
| CondRing.NeverStuck | labs/0105-go-locking-vs-channels/pingpong.go:82-91 | In every reachable state, for every n >= 1, a named goroutine can step: the holder, or with the mutex free the owner of the turn |
| CondRing.StepMeasure | labs/0105-go-locking-vs-channels/pingpong.go:82-91 | A natural measure decreases with every step that is no increment; an increment adds at most 3n + 5 |
| CondRing.EveryScheduleProgresses | labs/0105-go-locking-vs-channels/pingpong.go:82-91 | No scheduler can spend more than 3n + (3n + 6) * counter steps, so hand-offs never cease |
| CondRing.Ring.constructor | labs/0105-go-locking-vs-channels/pingpong.go:77-79 | Turn 0, mutex free, everybody about to lock |
| CondRing.Ring.Broadcast | labs/0105-go-locking-vs-channels/pingpong.go:89 | Everybody in the wait set is woken, nobody else is touched |
| CondRing.Ring.Step | labs/0105-go-locking-vs-channels/pingpong.go:82-91 | A goroutine's next step changes the shared state exactly as the step system says; it reports whether it counted |
| CondRing.Ring.Run | labs/0105-go-locking-vs-channels/pingpong.go:80-93 | Under any schedule what happens is a run, counted in order, with the number of steps bounded by the number of increments; every scheduled step that is possible when its turn comes is taken, so a schedule that is a run is followed as it is |
| Stage.SizeOf | applications/doc-pipeline/internal/pipeline/stage.go:39-44 | Positive numbers are kept; others become one worker and a buffer of 100 |
| Stage.ClosedMeansAllGone | applications/doc-pipeline/internal/pipeline/stage.go:60-65 | The wait group reaches zero exactly when every worker has returned, so only then is the channel, or can it be, closed |
| Stage.DroppedWithinWorkers | applications/doc-pipeline/internal/pipeline/stage.go:92-98 | At most one computed result per worker is lost to a cancellation |
| Stage.EmittedWithin | applications/doc-pipeline/internal/pipeline/stage.go:67-99 | fn is called with part of what was consumed and what was sent is part of its results; with one worker both are prefixes, in order |
| Stage.EmittedExactly | applications/doc-pipeline/internal/pipeline/stage.go:67-107 | With all workers returned and nothing dropped, fn was called with all that was consumed and all its results were sent; with one worker in order |
| Stage.PureExactly | applications/doc-pipeline/internal/pipeline/stage.go:67-107 | The results of a function that keeps nothing between calls are its filter-map, whatever the order of the calls |
| Stage.StageRun.constructor | applications/doc-pipeline/internal/pipeline/stage.go:29-62 | A started stage: corrected sizes, empty output, every worker in its outer select |
| Stage.StageRun.ReceiveItem | applications/doc-pipeline/internal/pipeline/stage.go:73-79 | Receiving changes the shared state exactly as the step system says |
| Stage.StageRun.CallFn | applications/doc-pipeline/internal/pipeline/stage.go:82-90 | So does fn's return: an error is counted and skips the item, a value goes to the second select |
| Stage.StageRun.SendResult | applications/doc-pipeline/internal/pipeline/stage.go:92-93 | So does sending the value |
| Stage.StageRun.Return | applications/doc-pipeline/internal/pipeline/stage.go:65-97 | So does returning from either select, which in the second loses the value in hand |
| Stage.StageRun.CloseOut | applications/doc-pipeline/internal/pipeline/stage.go:104-107 | The closer closes an open channel at wait group zero, with every worker gone |
| Stage.StageRun.ProcessAlone | applications/doc-pipeline/internal/pipeline/stage.go:67-99 | One round of a lone worker: one result, or none if fn fails |
| Stage.StageRun.RunAlone | applications/doc-pipeline/internal/pipeline/stage.go:56-110 | A stage with one worker turns a closed input into fn's results, in order, and closes its output; processed = errors + results |
| Chain.ReachableInv | applications/doc-pipeline/internal/pipeline/stage.go:56-110 | The invariant of every run of a chain: each stage consistent, each channel first in first out, and without cancellation nobody returns before the input is closed and empty |
| Chain.NeverSendsOnClosed | applications/doc-pipeline/internal/pipeline/stage.go:92-107 | In every run, cancelled or not, whoever can send finds the channel open, and it is closed or ready to be closed exactly when every worker has returned |
| Chain.DrivenStep | applications/doc-pipeline/internal/pipeline/stage.go:67-99 | What a schedule comes to: each action in turn is taken exactly if it is possible in the state reached so far, an offer with the next item due, if one is left |
| Chain.RunsAreDriven | applications/doc-pipeline/internal/pipeline/stage.go:67-99 | So a schedule that is a run and offers the items in order is taken as it is |
| Chain.DeliveredCount | applications/doc-pipeline/main.go:96-98 | In every run as many items have been delivered as there were deliveries |
| Chain.StageAccounts | applications/doc-pipeline/internal/pipeline/stage.go:73-98 | In every reachable state processed = errors + latencies + inside fn, latencies = sent + held + dropped, dropped <= workers; fn is called with part of the consumed items and what is sent is part of its results, with one worker prefixes of them in order |
| Chain.ItemsAccountedFor | applications/doc-pipeline/main.go:51-98 | In every reachable state each item sent is delivered, failed, dropped or in flight, with no more in flight than buffers and workers hold, and nothing dropped unless the run was cancelled |
| Chain.FilterMapAllIsPipe | applications/doc-pipeline/main.go:55-95 | Filter-mapping stage by stage is one filter-map by the composed function |
| Chain.PassedOnWithin | applications/doc-pipeline/main.go:55-80 | In every reachable state what pure stages have passed on is part of the composed filter-map of what was sent, with one worker a stage a prefix of it; likewise what a wholly pure chain delivers |
| Chain.PassedOnExactly | applications/doc-pipeline/main.go:55-80 | Finished and uncancelled, they have passed on exactly that, and a wholly pure chain has delivered it |
| Chain.DeliveredWithin | applications/doc-pipeline/main.go:55-98 | In every reachable state a last stage that may keep state was called with part of the composed filter-map of what was sent, and what was delivered is part of its results; with one worker the first of them, in order |
| Chain.DeliveredExactly | applications/doc-pipeline/main.go:55-98 | Finished and uncancelled, it was called with exactly that filter-map in some order, and exactly its results for that order were delivered; with one worker in that order |
| ChainProgress.StuckIffFinished | applications/doc-pipeline/internal/pipeline/stage.go:67-107 | Once the source has closed, an uncancelled chain can do nothing more if and only if all stages are closed and the consumer has drained the last |
| ChainProgress.WaitsOnlyForChannels | applications/doc-pipeline/internal/pipeline/stage.go:67-99 | A worker that has not returned can step unless its open input is empty in the first select or its output is full in the second, and in any case once the run is cancelled; never does it wait for another worker |
| ChainProgress.CancelledStageShutsDown | applications/doc-pipeline/internal/pipeline/stage.go:68-71 | After cancellation a stage can act by itself, without source or consumer, exactly as long as its output is not closed |
| ChainProgress.StepLoad | applications/doc-pipeline/internal/pipeline/stage.go:67-107 | A measure decreases with every step, except that an item offered by the source brings a fixed amount |
| ChainProgress.RunsAreBounded | applications/doc-pipeline/internal/pipeline/stage.go:56-110 | A run that sent m items through k stages has at most 2 + k + workers + (3k + 2) m steps |
| ChainRun.ChainRun.constructor | applications/doc-pipeline/main.go:51-95 | The stages as configured, each with channels and workers of its own, and the chain before its first step |
| ChainRun.ChainRun.CanTake | applications/doc-pipeline/internal/pipeline/stage.go:67-107 | What the selects, the closers, the source and the consumer find possible is what the step system allows |
| ChainRun.ChainRun.TakeFrom | applications/doc-pipeline/internal/pipeline/stage.go:73 | A receive takes the oldest item off a channel and touches nothing else |
| ChainRun.ChainRun.Step | applications/doc-pipeline/internal/pipeline/stage.go:56-110 | Every step, of whichever goroutine of whichever stage, changes the whole chain exactly as the step system says |
| ChainRun.ChainRun.Drive | applications/doc-pipeline/main.go:95-98 | Under any schedule the run consists of every scheduled action that is possible when its turn comes, with the offers carrying the next items due; a schedule that is such a run is followed as it is; what is printed is all that was delivered, in order, one item for each delivery taken |
| Pipeline.ConfiguredBounds | applications/doc-pipeline/main.go:51-98 | The configured pipeline has at most 506 items in flight, loses at most 6 results to a cancellation and none otherwise, and makes at most 12 + 14 m steps. One worker loads, three tokenize, one embeds and one indexes, with at most 100 items on each channel |
| Pipeline.DocsPassedOn | applications/doc-pipeline/main.go:55-80 | Load, tokenize and embed together make of each request the embedded document it is for, or nothing if it cannot be read |
| Pipeline.DocForMeans | applications/doc-pipeline/main.go:55-80 | A document is made of exactly the requests that can be read, under the request's id; its vector times its raw vector's length is the raw vector of its tokens in 1024 dimensions, unless that is zero |
| Pipeline.IndexAnswers | applications/doc-pipeline/main.go:86-93 | The index stage, called item after item, answers each document by what it holds of those before, whatever its search |
| Pipeline.AnswerMeans | applications/doc-pipeline/internal/index/index.go:62-88 | Such an answer carries the document's id and, duplicate or not, either names nothing (and with exact search nothing was held) or names a held document at its similarity, a duplicate exactly from 0.8 on; under exact search no held document is more similar, a duplicate is reported exactly if something held reaches 0.8, and what is held is what the sequential specification keeps |
| Pipeline.PrintedWithin | applications/doc-pipeline/main.go:51-98 | In every reachable state, cancelled or not, the index was called with part of the documents asked for, none twice, and the first of its answers, in order, were printed |
| Pipeline.PrintedExactly | applications/doc-pipeline/main.go:51-98 | Finished and uncancelled, it was called with exactly the documents asked for, in some order, and all its answers were printed in that order |
| Pipeline.KeptByPipeline | applications/doc-pipeline/main.go:72-98 | For requests with different ids, in every reachable state: every document called for is held or at 0.8 or more to one that is, whatever the search; those held are at similarities in [0, 1] of each other, and in [0, 0.8) under exact search. A document without a token is at 0 from everything by convention (NaN in the source) |
| Pipeline.RequestsStayDistinct | applications/doc-pipeline/internal/load/load_generator.go:62-71 | Requests made with different ids keep them when offered in any order, in whole or in part, without repetition |
| Pipeline.IndexRun | applications/doc-pipeline/internal/index/index.go:47-89 | Whatever items the index stage is called with, and whether the search is exact or not, some run of the index with one worker and that search's exactness is called with the same documents, holds the same graph, and returns the stage's results one by one |
| Pipeline.PrintedByIndex | applications/doc-pipeline/main.go:82-98 | In every reachable state of the pipeline, exact search or not, what is printed are the first of the results returned in a run of the index, called with the documents the index stage was called with, in their order |
| Pipeline.Run | applications/doc-pipeline/main.go:95-98 | Under any schedule of the configured stages what happens is a run that sends the offered items in order, and what is printed answers documents asked for, all of them after an uncancelled finish; every scheduled action that is possible in its turn is taken, a schedule that is a run is followed as it is, and one item is printed for each delivery taken |
| Pipeline.RunGenerated | applications/doc-pipeline/main.go:43-98 | With the generator at the head: the items sent are its first requests, in order, with their windows and ids, and without further assumption the index holds what KeptByPipeline says; the schedule is followed as in Run |
| LoadGenerator.IdInjective | applications/doc-pipeline/internal/load/load_generator.go:121 | Two ids are the same exactly when the counters are, whatever the prefix |
| LoadGenerator.DecimalDigits | applications/doc-pipeline/internal/load/load_generator.go:121 | The counter is written in decimal digits without leading zeros |
| LoadGenerator.WindowsIff | applications/doc-pipeline/internal/load/load_generator.go:85-118 | The windows some random numbers draw are exactly those that lie in the file with a size within the clamped bounds |
| LoadGenerator.Generator.Generate | applications/doc-pipeline/internal/load/load_generator.go:79-126 | For every configuration, mis-ordered bounds and a short or empty file included, the window lies in the file and its size within the clamped bounds, size and offset being the least possible plus what was drawn |
| LoadGenerator.Generator.Run | applications/doc-pipeline/internal/load/load_generator.go:60-72 | The requests of any number of ticks are numbered from the counter on and have pairwise different ids |
| Fields.FieldsAreTheMaximalRuns | applications/doc-pipeline/internal/tokenize/tokenize.go:30-32 | Splitting yields exactly what lies in the maximal runs of kept runes, each once and in order |
| Fields.FieldsJoin | applications/doc-pipeline/internal/tokenize/tokenize.go:30-32 | Joining by a rune that is not kept concatenates the fields |
| Tokenize.SliceEncoded | applications/doc-pipeline/internal/tokenize/tokenize.go:27-32 | A byte slice between rune boundaries of encoded text is the encoding of the runes in between |
| Tokenize.Tokenize | applications/doc-pipeline/internal/tokenize/tokenize.go:19-50 | For every text, malformed UTF-8 included, the result is never an error, keeps the id and holds the text's tokens |
| Tokenize.TokensAreTheLetterRuns | applications/doc-pipeline/internal/tokenize/tokenize.go:27-44 | Those tokens are the encoded maximal letter runs of the lower-cased text, in order, each rune of which is the lower case of the rune decoded there |
| Tokenize.TokensJoin | applications/doc-pipeline/internal/tokenize/tokenize.go:19-50 | Joining any two byte strings by any scalar that is no letter concatenates their token lists |
| Tokenize.TokensAroundMalformed | applications/doc-pipeline/internal/tokenize/tokenize.go:19-50 | So does a byte at which nothing can be decoded, wherever no scalar is cut, if U+FFFD in lower case is no letter |
| Tokenize.TokensOfJoined | applications/doc-pipeline/internal/tokenize/tokenize.go:19-50 | Round trip: a list of lower-case words written out with separators tokenizes to that list |
| Embed.RawStep | applications/doc-pipeline/internal/embed/embed.go:35-42 | From a zero vector on, one more token with hash h moves bucket h mod dim by -1 if h is odd and by 1 if it is even, and no other bucket |
| Embed.RawAppend | applications/doc-pipeline/internal/embed/embed.go:35-43 | Raw vectors of concatenated token lists add up |
| Embed.RawOfJoinedTexts | applications/doc-pipeline/internal/embed/embed.go:32-43 | From texts joined by any non-letter to raw vectors is a homomorphism |
| Embed.RawPermutation | applications/doc-pipeline/internal/embed/embed.go:35-43 | Token order does not matter |
| Embed.ParityOfBucket | applications/doc-pipeline/internal/embed/embed.go:37-41 | In an even dimension a hash has the parity of its bucket |
| Embed.EvenBucket | applications/doc-pipeline/internal/embed/embed.go:35-43 | Even dimension: a bucket's magnitude is the number of its tokens, its sign the bucket's parity |
| Embed.EvenL1 | applications/doc-pipeline/internal/embed/embed.go:35-43 | Even dimension: the L1 norm of the raw vector is the number of tokens |
| Embed.NeverCancelsIff | applications/doc-pipeline/internal/embed/embed.go:33-43 | For all hashes and token lists a zero raw vector means no tokens, if and only if the dimension is even |
| Embed.Normalize | applications/doc-pipeline/internal/embed/embed.go:52-61 | In place, every component becomes the number that times the vector's length is the component; a zero vector becomes NaN throughout |
| Embed.Embed | applications/doc-pipeline/internal/embed/embed.go:32-50 | The components of the normalised raw vector, that is those which times its length are the raw ones, or NaN throughout for a zero one, under the document's id |
| Embed.EmbeddingLength | applications/doc-pipeline/internal/embed/embed.go:52-61 | An embedding is a number exactly when the raw vector is not zero, and then has length one |
| Embed.EmbeddingIsRaw | applications/doc-pipeline/internal/embed/embed.go:52-61 | An embedding that is a number is the raw vector, every component divided by one positive number, the length of the raw vector |
| Embed.SimilarityIsCosine | applications/doc-pipeline/internal/index/index.go:64 | Similarity is the cosine: times the lengths of both raw vectors it is their dot product |
| Embed.EvenEmbedding | applications/doc-pipeline/main.go:72 | Even dimension: a document has a unit embedding exactly when it has a token |
| Embed.SimilarityBounds | applications/doc-pipeline/internal/index/index.go:64 | Similarities lie in [-1, 1], and 1 means equal embeddings |
| Embed.EmbeddingPermutation | applications/doc-pipeline/internal/embed/embed.go:32-50 | Documents with the same tokens in another order have the same embedding |
| Embed.EvenDot | applications/doc-pipeline/internal/embed/embed.go:35-43 | Even dimension: the dot product of any two raw vectors is not negative |
| Embed.EvenSimilarity | applications/doc-pipeline/main.go:72 | Even dimension: similarities of documents with tokens lie in [0, 1] |
| Vectors.UnitProduct | applications/doc-pipeline/internal/embed/embed.go:52-61 | Cauchy-Schwarz for unit vectors, with equality only for the same vector |
| Vectors.DotStep | applications/doc-pipeline/internal/embed/embed.go:53-56 | The dot product of nothing is 0, and one more pair of elements adds their product |
| Index.ReachableInv | applications/doc-pipeline/internal/index/index.go:47-89 | The invariant of every run: a worker's search-to-add stretches are disjoint, and under exact search an addition was below the threshold to all that was there at its search |
| Index.SimilarAtMostWorkers | applications/doc-pipeline/internal/index/index.go:58-81 | With W workers and exact search, in every reachable state at most W stored documents are pairwise as similar as the threshold, and all of them were between search and addition at one common instant |
| Index.OneWorkerKeepsApart | applications/doc-pipeline/main.go:86-93 | With one worker any two stored documents are below the threshold |
| Index.BoundIsReached | applications/doc-pipeline/internal/index/index.go:58-81 | For every W, W documents as similar as the threshold can all be stored |
| Index.ReportsAreGrounded | applications/doc-pipeline/internal/index/index.go:47-89 | Without exactness: every report is one of the answers of a search of the index as it was then, decided on; processed = added + duplicates + still with a worker; the graph holds the latest document added under each id |
| Index.SettledIff | applications/doc-pipeline/internal/index/index.go:62-88 | What may be returned for a document, with nothing said about how it is decided: its id and either no name, no similarity and no duplicate (under exact search only if nothing is stored), or a stored document at its similarity, a duplicate exactly from the threshold on, and under exact search none more similar |
| Index.NamedIsStored | applications/doc-pipeline/internal/index/index.go:62-88 | With different ids the document a report names, duplicate or not, is still stored at the reported similarity |
| Index.ExactDuplicateIff | applications/doc-pipeline/internal/index/index.go:62-70 | Under exact search a duplicate is reported exactly when some stored document reaches the threshold |
| Index.EmbeddingIndex.New | applications/doc-pipeline/internal/index/index.go:33-45 | An index is made exactly for thresholds in (0, 1] |
| Index.EmbeddingIndex.Call | applications/doc-pipeline/internal/index/index.go:47-50 | Being called changes the shared state exactly as the step system says |
| Index.EmbeddingIndex.SearchWithDistance | applications/doc-pipeline/internal/index/index.go:59 | The idealised search: nothing only from an empty index, else a stored key none is nearer than |
| Index.EmbeddingIndex.Search | applications/doc-pipeline/internal/index/index.go:58-69 | Search and decision change the shared state exactly as the step system says; the result names nothing from an empty index, and else a nearest stored document at its similarity |
| Index.EmbeddingIndex.Finish | applications/doc-pipeline/internal/index/index.go:70-88 | So does the second critical section: add what is no duplicate, count what is |
| Index.EmbeddingIndex.DedupAndIndex | applications/doc-pipeline/internal/index/index.go:47-89 | Undisturbed: from an empty index nothing is named at similarity 0, from any other a stored document at its similarity with none more similar; the document is reported exactly if that reaches the threshold, and stored otherwise |
| Index.EmbeddingIndex.TakeTurn | applications/doc-pipeline/internal/index/index.go:47-89 | Whichever critical section a worker is at, taking it continues the run by that turn; only a turn its worker cannot use does nothing |
| Index.EmbeddingIndex.Run | applications/doc-pipeline/internal/index/index.go:47-89 | Any interleaving of the workers is a run, so no more stored documents than workers are pairwise as similar as the threshold; every turn that its worker can use is used, so the turns of a run are all used |
| Deduplication.IndexAll | applications/doc-pipeline/main.go:86-95 | One worker over a list of documents keeps exactly those close to nothing kept before, and answers each by what was kept before it |
| Deduplication.TakeOneMore | applications/doc-pipeline/internal/index/index.go:47-89 | Any run of the index that leaves its one worker idle goes on with one more document, for any answer of the search: stored exactly if not reported a duplicate, which under exact search is reported exactly if something stored reaches the threshold |
| Deduplication.SettledDuplicate | applications/doc-pipeline/internal/index/index.go:62-70 | Such an answer says duplicate exactly when something kept reaches the threshold, and, duplicate or not, names something kept at its similarity with nothing more similar, unless nothing is kept |
| Deduplication.KeptApart | applications/doc-pipeline/internal/index/index.go:62-81 | What is kept is pairwise below the threshold |
| Deduplication.KeptCovers | applications/doc-pipeline/internal/index/index.go:62-81 | With different ids every document seen is kept or close to one that is |
| Deduplication.Covers | applications/doc-pipeline/internal/index/index.go:71-84 | The same of every way of storing that leaves a document out only if it is close to something stored, so of every search |
| Deduplication.StoredIsKept | applications/doc-pipeline/internal/index/index.go:59-84 | What an exact search leads to is what the sequential specification keeps, whichever nearest document it names |
| Deduplication.RepeatIsReported | applications/doc-pipeline/internal/index/index.go:62-69 | A document with the vector of any earlier one is reported, whatever became of that one |
| Deduplication.PermutationIsReported | applications/doc-pipeline/internal/index/index.go:62-76 | A document whose tokens are a permutation of an earlier document's is reported as a duplicate, exactly if its raw vector is not zero |
| Deduplication.EmbeddedSimilarity | applications/doc-pipeline/main.go:72 | Even dimension: two embedded documents with a token each have a cosine in [0, 1]; where one has no token the similarity is 0 by convention (NaN in the source) |
| Deduplication.VecIsRaw | applications/doc-pipeline/internal/embed/embed.go:52-61 | The vector the index is given is the raw vector over its length, or by convention empty if the raw vector is zero |
| Deduplication.TextCosine | applications/doc-pipeline/internal/index/index.go:64 | What the index compares is the cosine of the raw vectors |
| Deduplication.ConfiguredIndex | applications/doc-pipeline/main.go:72-93 | With dimension 1024 and threshold 0.8, kept documents are at similarities in [0, 0.8) of each other, which is their cosine where both have a token, and 0 by convention (NaN in the source) where one has none |
| Utf8.DecodeEncode | applications/wc-go/processing/line_processors.go:24 | Decoding the encoding of a scalar gives it back, whatever follows |
| Utf8.DecodeSound | applications/wc-go/processing/line_processors.go:24 | What decodes to more than one byte, or from ASCII, is the encoding of its rune |
| Utf8.MalformedIff | applications/wc-go/processing/line_processors.go:24-31 | One byte is consumed as U+FFFD exactly when no encoded scalar starts there |
| Utf8.WellFormedExamples | applications/wc-go/processing/line_processors.go:24-31 | The encoder agrees with the examples in section 7 of RFC 3629 |
| Utf8.MalformedExamples | applications/wc-go/processing/line_processors.go:24-31 | Overlong forms, surrogates, values above U+10FFFF and stray or missing continuations decode to U+FFFD, one byte at a time |
| Utf8.RunesSplit | applications/wc-go/processing/line_processors.go:58-62 | Any byte string cut before a byte that continues nothing decodes in two parts |
| Utf8.RunesUnstraddled | applications/wc-go/processing/line_processors.go:56-64 | Byte strings decode separately wherever no scalar begins in the one and ends in the other |
| Utf8.RunesAroundMalformed | applications/doc-pipeline/internal/tokenize/tokenize.go:27-32 | A byte at which nothing can be decoded is U+FFFD between what is before and what is after |
| Utf8.RunesEncodeAll | applications/wc-go/processing/line_processors.go:24 | Round trip: encoded runes decode to themselves |
| LineProcessors.WordCountProcessor.Process | applications/wc-go/processing/line_processors.go:20-34 | The counter grows by the number of bytes that are none of blank, tab, newline, vertical tab, form feed and carriage return and follow one of these or nothing |
| LineProcessors.LineCountProcessor.Process | applications/wc-go/processing/line_processors.go:44-46 | The counter grows by one |
| LineProcessors.CharacterCountProcessor.Process | applications/wc-go/processing/line_processors.go:56-64 | The counter grows by the number of decoded runes |
| LineProcessors.WordsAreStarts | applications/wc-go/processing/line_processors.go:20-34 | Words are the positions of elements that are none of those six and follow one of them or nothing |
| LineProcessors.WordsNeedNoDecoding | applications/wc-go/processing/line_processors.go:20-34 | For every byte string the decoded word count is that of a scan of the raw bytes |
| LineProcessors.WordsSplit | applications/wc-go/processing/line_processors.go:66-73 | A space between two texts keeps their words apart |
| InputProcessors.ByteTotals | applications/wc-go/processing/input_processors.go:173-200 | For every byte string: lines are the bytes 0x0A plus an unterminated rest, words are the bytes that are none of the six space bytes and follow one or nothing, and all runes are the characters counted line by line plus the bytes 0x0A plus the pairs 0x0D 0x0A |
| InputProcessors.LinesAreTheInput | applications/wc-go/processing/input_processors.go:173-200 | The lines handed out with what ended each put back are the input: a newline with all of one carriage return before it, or the end of the input; no line holds a newline |
| InputProcessors.ScannerFitsIff | applications/wc-go/processing/input_processors.go:203-214 | The scanner delivers every line unless 65536 bytes in a row hold no newline, and fails exactly then |
| InputProcessors.ScannedBefore | applications/wc-go/processing/input_processors.go:203-214 | The scanner delivers exactly the lines before the first newline-free stretch of 65536 bytes at a line's start, if there is one |
| InputProcessors.SplittersDiffer | applications/wc-go/processing/input_processors.go:173-217 | The splitters hand out the same lines exactly when the input does not end in a carriage return; when it does, one drops it from the last line |
| InputProcessors.LoneCarriageReturn | applications/wc-go/processing/input_processors.go:193-194 | On a lone carriage return one splitter hands out that byte, the other an empty line |
| InputProcessors.PathsAgree | applications/wc-go/processing/input_processors.go:173-217 | Where the scanner does not fail, both paths report the same lines and words, and characters that differ by one exactly for a final carriage return |
| InputProcessors.Counters.ProcessLine | applications/wc-go/processing/input_processors.go:186-188 | The line is handed out, and all three counters take it in |
| InputProcessors.Counters.ProcessBytes | applications/wc-go/processing/input_processors.go:173-200 | The index-juggling loop hands out exactly the specified lines, in order, and counts them |
| InputProcessors.Counters.RunUpFront | applications/wc-go/processing/input_processors.go:78-87 | Lines and totals of the whole content, or nothing and the error |
| InputProcessors.Buffered | applications/wc-go/processing/input_processors.go:105-120 | However the reader chunks its data, mid-rune or with the end of input, the buffer is the content |
| InputProcessors.ContentOfReads | applications/wc-go/processing/input_processors.go:105-120 | The content is every chunk's bytes in order, those that come with the end of input or an error included |
| InputProcessors.Counters.RunBuffering | applications/wc-go/processing/input_processors.go:101-123 | For every chunking the same lines, totals and errors as processing all input at once |
| InputProcessors.Scanner.Scan | applications/wc-go/processing/input_processors.go:203-205 | The first token of what is left, byte for byte, or none at its end or at a line that is too long |
| InputProcessors.Counters.ScanAll | applications/wc-go/processing/input_processors.go:202-216 | Hands out and counts the tokens before the first line that is too long, and says whether there is one |
| InputProcessors.Counters.RunScanner | applications/wc-go/processing/input_processors.go:57-62 | The scanner path's tokens, totals and its three errors |
| Optimistic.ReachableInv | labs/0202-postgres-locking-tradeoffs/optimistic.sql:11-15 | The invariant of every run, row by row, client by client and version by version |
| Optimistic.VersionsConsumedOnce | labs/0202-postgres-locking-tradeoffs/optimistic.sql:14-15 | Updates that matched consumed exactly the versions below each row's current one, once each |
| Optimistic.MatchesIff | labs/0202-postgres-locking-tradeoffs/optimistic.sql:14-15 | An update will match exactly if nobody has consumed the version it read |
| Optimistic.NobodyWaits | labs/0202-postgres-locking-tradeoffs/optimistic.sql:11-15 | A client can always read or update when it gets there, unless it stopped at an id that is not in the table |
| Optimistic.BalancesConserved | labs/0202-postgres-locking-tradeoffs/seed.sql:12-20 | In every run each row keeps balance + version = 1000000, and the total decrement is the number of updates that matched |
| Optimistic.LossesCharged | labs/0202-postgres-locking-tradeoffs/optimistic.sql:11-15 | Each loss belongs to the one win that consumed its version, at most C - 1 to a win |
| Optimistic.FinishedBound | labs/0202-postgres-locking-tradeoffs/experiments/02_high_contention.md:50-67 | In every interleaving finished attempts are at most C times the updates that matched |
| Optimistic.BoundIsReached | labs/0202-postgres-locking-tradeoffs/optimistic.sql:11-15 | For every C and m some run has m matches and exactly C * m finished attempts |
| Optimistic.HotAccounts.constructor | labs/0202-postgres-locking-tradeoffs/seed.sql:12-20 | The seeded table |
| Optimistic.HotAccounts.Select | labs/0202-postgres-locking-tradeoffs/optimistic.sql:11-12 | The read changes the client's variables exactly as the step system says |
| Optimistic.HotAccounts.UpdateRow | labs/0202-postgres-locking-tradeoffs/optimistic.sql:14-15 | The guarded update changes the row in place exactly as the step system says, and reports the rows affected |
| Optimistic.HotAccounts.TotalDecrement | labs/0202-postgres-locking-tradeoffs/experiments/02_high_contention.md:50-67 | The experiment's measurement: what the balances lost in all |
| Optimistic.HotAccounts.Run | labs/0202-postgres-locking-tradeoffs/optimistic.sql:11-15 | Under any schedule attempts <= C * decrement; every scheduled step that is possible when its turn comes is taken, so a schedule that is a run is followed as it is |
| Pessimistic.ReachableInv | labs/0202-postgres-locking-tradeoffs/pessimistic.sql:11-16 | The invariant of every run: a row's lock is held exactly by the client inside with it, and what that client was shown is still so |
| Pessimistic.MutualExclusion | labs/0202-postgres-locking-tradeoffs/pessimistic.sql:12-16 | Two clients are never between lock and commit of one row |
| Pessimistic.WaitsOnlyForARow | labs/0202-postgres-locking-tradeoffs/pessimistic.sql:11-16 | A client waits only for its row's lock, and exactly while another client is between locking and committing that row |
| Pessimistic.NothingIsStale | labs/0202-postgres-locking-tradeoffs/pessimistic.sql:13-15 | The balance shown under the lock is the one the update replaces by one less |
| Pessimistic.EveryCommitCounts | labs/0202-postgres-locking-tradeoffs/pessimistic.sql:12-16 | In every run the total decrement is the number of commits to existing rows, so of all commits if the ids are in the table |
| Pessimistic.OpenTransactionsAdvance | labs/0202-postgres-locking-tradeoffs/pessimistic.sql:12-16 | While a transaction is open, some open transaction can move on |
| Pessimistic.FourStepsEach | labs/0202-postgres-locking-tradeoffs/pessimistic.sql:11-16 | A run's length is four steps a commit plus the steps of open transactions: nothing is retried |
| Pessimistic.HotAccounts.constructor | labs/0202-postgres-locking-tradeoffs/seed.sql:12-20 | The seeded table, unlocked |
| Pessimistic.HotAccounts.Take | labs/0202-postgres-locking-tradeoffs/pessimistic.sql:11-16 | Each statement changes table, locks and clients exactly as the step system says |
| Pessimistic.HotAccounts.Run | labs/0202-postgres-locking-tradeoffs/pessimistic.sql:11-16 | Under any schedule for rows of the table, commits = total decrement; every scheduled step that is possible when its turn comes is taken, so a schedule that is a run is followed as it is |
| ConnPool.Pool.New | applications/reverse-proxy/pkg/pool/pool.go:12-25 | A full pool in dialling order exactly if every dial succeeds, else the first failure |
| ConnPool.Pool.Get | applications/reverse-proxy/pkg/pool/pool.go:27-30 | The oldest connection leaves the pool |
| ConnPool.Pool.Return | applications/reverse-proxy/pkg/pool/pool.go:32-39 | The connection goes to the end of the pool if there is room, and is closed if not |
| Engine.ReachableInv | applications/reverse-proxy/pkg/engine/engine.go:26-41 | The invariant of every run: pooled plus borrowed is the pool's size, and every connection is accounted for |
| Engine.EachInOnePlace | applications/reverse-proxy/pkg/engine/engine.go:26-41 | Over any run the close-excess branch is never taken, and each connection is in the pool or with exactly one session |
| Engine.WaitingIsServedIff | applications/reverse-proxy/pkg/engine/engine.go:30-35 | A waiting session can get a connection now or after some session in progress ends, exactly if the pool was not made empty |
| Engine.ServesAll | applications/reverse-proxy/pkg/engine/engine.go:26-41 | With any connections at all, any number of sessions can be served |
| Engine.EpollServesAtMost | applications/reverse-proxy/pkg/engine/engine.go:71-77 | Under the epoll engine no more sessions than connections ever get past Get; a waiting one can exactly while fewer have |
| Engine.EpollStarves | applications/reverse-proxy/pkg/engine/engine.go:165-173 | Once they have, whoever waits or arrives waits in every continuation |
| Engine.EpollEngine.Serve | applications/reverse-proxy/pkg/engine/engine.go:71-111 | The pool loses its oldest connection whatever happens; both descriptors are entered as soon as there are both, even if EpollCtl then fails; the error is the first that occurs |
| Engine.EpollEngine.CloseConn | applications/reverse-proxy/pkg/engine/engine.go:165-173 | Both descriptors are deleted, the session is closed, and the pool is untouched |
| Engine.EpollEngine.HandleEvent | applications/reverse-proxy/pkg/engine/engine.go:128-163 | An event closes the session its descriptor belongs to exactly if it is entered, readable and not forwarded; otherwise nothing changes |
| Engine.EpollEngine.Run | applications/reverse-proxy/pkg/engine/engine.go:71-173 | Clients and events in any order make a run of the step system with one session for each client; as many get past Get as come, up to the pool's size; a descriptor whose end was reported is not entered as long as no client comes |
| Engine.EpollEngine.ServeInTurn | applications/reverse-proxy/pkg/engine/engine.go:71-98 | Serving one client after another, each closed before the next, ends after exactly as many as the pool held |
| Engine.Proxy.Take | applications/reverse-proxy/pkg/engine/engine.go:26-41 | A session's step over the shared pool changes it exactly as the step system says |
| Engine.Proxy.Run | applications/reverse-proxy/pkg/engine/engine.go:26-41 | Under any schedule no connection is closed as excess or goes missing; every scheduled step that is possible when its turn comes is taken, so a schedule that is a run is followed as it is |

## Left out

- Atomicity below a step: an unbuffered send and its receive, Lock, Wait's unlock-and-enlist, Broadcast, a buffered send, a receive, and each SQL statement are one step each. The increment is a step of its own.
- Ring participants: zero (division by zero) and negative counts (a panic in make) are not modelled, and the counter does not wrap at 64 bits.
- The rings' one-second ticker and its output.
- Chain: one item type stands for the sum of the types between stages; `Pipeline.Item` is that sum for the configured pipeline.
- Stage: a call of fn takes effect as one step, at its return. With several workers and a function that keeps state this leaves out what happens inside concurrent calls; for the index that is the subject of Index, and the configured pipeline has one index worker.
- Pipeline: the generator's send (load_generator.go:70) is not guarded by cancellation, so no claim is made that the source closes; results that need it say so.
- Metrics, logging, telemetry and latencies as durations: only the counts of processed items, errors and recorded latencies are kept.
- LoadData: reading the file. What a request reads, if anything, is a function of the request, so the file does not change during a run.
- NewLoadGenerator's buffer size, which nothing reads, and the generator's rate.
- Tokenize: the tables behind unicode.ToLower and unicode.IsLetter are parameters; that ToLower returns scalar values for scalar values is assumed.
- Embed: dimensions that are not positive (a panic, or an empty vector); float32 rounding and overflow; FNV-1a, which is an arbitrary function here. Infinities do not arise.
- Index.EmbeddingIndex.SearchWithDistance: is an exact nearest search over reals; the source's HNSW graph is approximate, so results that need exactness say so. ReportsAreGrounded and the Pipeline module do without: there a search names any stored document or none, and may depend on all earlier documents. HNSW's panic on vectors of different lengths is left out, and an embedding that is NaN is taken to be similar to nothing, where HNSW's order among NaN distances is arbitrary.
- Index: the read lock admits several searches at once; as they change nothing, one search is one step.
- Utf8.Decode and the encoder describe Go's standard library, after section 4 of RFC 3629.
- InputProcessors: opening, stat and mapping of files, and the choice of a path by flag; the mapped paths call the byte path or the scanner path on the same bytes.
- InputProcessors.Counters: the slice of LineProcessor values is fixed to the three processors of the command line.
- InputProcessors.Scanner.Scan: the scanner's refilling buffer is a limit on line lengths; an unterminated last line of exactly 65536 bytes fails here, as it does whenever the end of input is not reported together with its last byte.
- Empty reads without progress, for which bufio gives up after a hundred, are not limited.
- Optimistic, Pessimistic: transaction aborts, timeouts, snapshots and 64-bit overflow. An UPDATE checks its WHERE against the committed row, as under read committed.
- Optimistic: a client whose \gset finds no row stops for good, as pgbench's does; the script with retries is not in the repository.
- Pessimistic: the order in which waiting clients get a row's lock is left open, so no bound on one client's waiting is claimed.
- ConnPool.Pool.New: a negative size panics in make. The connections already dialled when one fails are dropped, as in the source, without being closed.
- Engine: bytes and descriptors. Whether a returned connection is still usable, the copy direction that may outlive a session, epoll readiness, short writes and reused descriptors are not modelled; whether a read and the write after it succeed is a parameter.
- Engine.EpollEngine.Serve: requires a connection to be there, since Get blocks until one is.
- The log-aggregator, sig-counter, fs-monitor and db-query applications, the other labs, and all dashboards and prose: their invariants are trivial or belong to the operating system.
