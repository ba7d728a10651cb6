# minifind, modelled and verified

minifind is a parallel `find`: worker threads walk directory trees by stealing
tasks from each other, filter every entry as they meet it, and send batches of
matches through a bounded channel to one output thread, which may stop the walk
at a result cap. This project models that program in Dafny and proves what it
promises for every directory snapshot, every option set, every number of threads
and every interleaving.

The three main results:

* **One answer.** Every run that is neither interrupted nor capped writes exactly
  the multiset of entries of a plain recursive walk (`EndToEnd.RunsRefineWalk`).
  `Promise.ReadsExactly`, `Promise.WritesExactly` and `Promise.WrittenOncePerPath`
  say what that is of the snapshot's records and the options alone, and
  `Answer.RunAnswersRequest` adds what each filter asks. With a cap of N a run
  writes exactly min(N, matches) (`EndToEnd.CapIsExact`).
* **It ends.** No schedule that is fair to every thread goes on for ever
  (`Fairness.FairRunsEnd`), and the only states in which no thread can act are
  those in which all of them have returned (`Fairness.OnlyTheEndIsStuck`),
  whatever the full channel, the throttle, the closed receiver and the idle
  workers do.
* **It fits.** At most workers x levels directory descriptors are pinned in any
  reachable state (`Frontier.PinnedDescriptors`), and at the end of any run none
  (`Frontier.AllReleased`); an unstopped walk has released them all by its own
  work before it returns (`Frontier.ReleasedByWork`).

`dafny verify dfyconfig.toml` checks everything.

## How the model is built

| file | models |
|---|---|
| `FileSystem.dfy` | the immutable snapshot (directories as record streams, open and stat failures as absent answers) and the options of a run |
| `WalkSpec.dfy` | the specification: a recursive, sequential walk as a multiset of events (`Below`, `Records`, `Walk`), well-founded on any link graph |
| `Routes.dfy` | the same walk said without recursion: routes, pruning, cycle cutting, uniqueness |
| `Machine.dfy` | the run as a state machine, split at its atomic operations: load `quit`, pop, look into the injector, look into one peer after the other, steal, load/add/sub on `pending`, push, open, read a record, drop a task, send, receive, write, hang up |
| `Shape.dfy`, `Accounting.dfy`, `Flow.dfy`, `Invariant.dfy` | what every step keeps: local shape, the `pending` count, past plus future events, the pipeline's contents, causes of quitting |
| `EndToEnd.dfy`, `Independence.dfy` | what every run writes, and what that does not depend on |
| `Promise.dfy`, `Request.dfy`, `Answer.dfy` | the same from outside: what is read and written in terms of stream records, stat answers and options, what the filters ask in terms of names, sizes, ages and mode bits, and what stands on standard output |
| `Progress.dfy`, `Fairness.dfy`, `Frontier.dfy` | the measure, deadlock freedom, termination of fair runs, and the descriptor bound |
| `WorkerCode.dfy` | `run_worker`, `find_task`, `process` and `descend` as imperative methods on the shared state, with arbitrary actions of all other threads wherever they can be overtaken; each method's own steps are steps of the machine |
| `Output.dfy` | `BatchSender` and the output loop as imperative code, and reading the output back |
| `Seeding.dfy`, `Leaf.dfy`, `Visitor.dfy` | root deduplication and seeding, the directory-stream loop of the Unix leaf, the visitor's filter cascade |
| `Comparisons.dfy`, `Perm.dfy`, `MetaPredicates.dfy`, `FileTypes.dfy` | the metadata predicates with their parsers, the stat mask, the id memo, and the type selectors |
| `NumberTexts.dfy`, `PermTexts.dfy` | every text the numeric tests and `-perm` accept, and as what |

The option `pruning` stands for the code's rule of not queueing subdirectories past
the depth limit; it is a parameter so that the walker without it can be compared.
A `Job` is a plan whose preconditions hold: at least one thread and, unless
symlinks are followed, no cycle among real directories. `Complete(job, s)` says
that `s` ends a run that was not interrupted and did not reach the cap.

Assumptions: atomic operations are sequentially consistent; a deque's owner
takes the newest task and a thief the oldest, and the injector hands out its
oldest task with a batch of the next ones in any order, none lost or duplicated;
the snapshot does not change during the run; a limiter token can always be
granted, and is refused only after `quit`; name matchers, stat answers and the
name service are fixed functions.

Where code and comments differ, the model follows the code:

* `src/meta.rs:95` says that clamping an unsigned field "preserves every
  verdict". It does not at the very edge: `Comparisons.ClampBoundary` gives the
  exact condition and `Comparisons.ClampCounterexample` a field and thresholds
  for which it fails. Sizes in units above a byte never get there
  (`Comparisons.SizeIntervals`).
* The age of a file is computed by an unchecked 64-bit subtraction
  (`src/meta.rs:197`), which wraps in release builds, so a time far enough before
  the epoch counts as one in the future. `Comparisons.OverflowVerdict` says exactly
  which verdicts that changes, and `Comparisons.AgeCounterexample` gives one.
* `-N` written for a negative exact number means "less than"
  (`Comparisons.ComparisonRoundTrip` is an equivalence, not a plain round trip).

## Model

| member | source | states |
|---|---|---|
| WalkSpec.HeightDrops | src/walk.rs:321-334 | Well-founded descent: a child's height is smaller, by the ids not yet among the ancestors when links are followed, by the rank of real directories otherwise. |
| Routes.ReadIffWalked | src/walk.rs:283-374 | A directory is read at a depth iff a route of that length, below `--max-depth` if set, of permitted, non-excluded, same-device steps leads to it, revisiting nothing when links are followed. |
| Routes.EmitIffShown | src/walk.rs:342-373 | Depth and pruning: an entry is emitted iff the filters keep it and it is a non-excluded record of a directory some walked route leads to; path and depth spell the route. |
| Routes.Shorten | src/walk.rs:324-328 | Any route can be cut to one that visits no directory twice, is no longer, and ends at the same place. |
| Routes.NoDirectoryLost | src/walk.rs:321-337 | Cutting cycles loses no directory: whatever k permitted steps reach, k below `--max-depth` if set, is read at depth at most k. |
| Routes.AncestorsAreDistinct | src/walk.rs:324-334 | With links followed, every task below a root has as many ancestors as it is deep, pairwise distinct, all of them directories. |
| Routes.ReadsAreShallow | src/walk.rs:303-328 | No read is deeper than there are directories, on any snapshot: with links by the cycle cut, without them because real directories form no cycle. |
| Routes.AtMostOnce | src/walk.rs:342-373 | With unique names per directory, a descent emits no entry twice. |
| Routes.RootEmitsOnce | src/walk.rs:266-280 | Nor does a whole root walk, the root's own entry included. |
| Routes.PathsAreDistinct | src/walk.rs:342-373 | Below one root two emitted entries never share a path. |
| Shape.ShapeKept | src/walk.rs:258-374 | Every action of every thread keeps the local facts: tasks anchored one level above themselves, open directories readable, batches below their limit. |
| Accounting.PendingKept | src/walk.rs:219-227 | Every action keeps `pending` equal to queued tasks plus running ones plus increments whose push has not happened. |
| Accounting.ZeroMeansNoWork | src/walk.rs:224-226 | `pending == 0` implies that the injector and every deque are empty and nobody runs a task. |
| Accounting.NonZeroMeansWork | src/walk.rs:224-227 | Otherwise, with an empty injector, some walker has a task. |
| Accounting.PastLimit | src/walk.rs:335-337 | Not queueing children that could not read changes nothing: no event is below them. |
| Accounting.WalkConserved | src/walk.rs:207-374 | Every action keeps past plus future events within the recursive walk's, and equal to them until somebody is told to stop. |
| Flow.FlowKept | src/lib.rs:65-99 | Every action keeps, for each walker and in push order: accepted = written + in the output thread's hand + in the channel + discarded with the closed channel + held. |
| Flow.BoundKept | src/lib.rs:163-195 | Every action keeps the channel within its capacity and the output within the cap, closes the channel only at the cap or drained after all senders are gone, leaves nothing in flight behind a closed channel, and discards nothing below the cap. |
| Flow.LoggedKept | src/lib.rs:297-301 | Every action keeps emissions equal to what the visitors accepted. |
| Invariant.ZeroIsForever | src/walk.rs:224-226 | Termination detection is safe: once `pending` is 0 no action makes it nonzero. |
| Invariant.ClosedMeansCapped | src/lib.rs:188-193 | A send that fails finds the cap already written. |
| Invariant.InvKept | src/walk.rs:207-374 | All invariants together are inductive over every action. |
| Invariant.InvReachable | src/walk.rs:193-230 | They hold in every reachable state of every interleaving. |
| EndToEnd.NothingSpurious | src/lib.rs:176-195 | In every state of every run, interrupted or not, nothing is written that the walk does not emit, nor more often. |
| EndToEnd.WalkIsComplete | src/walk.rs:207-374 | A complete run performs exactly the events of the recursive walk. |
| EndToEnd.RunsRefineWalk | src/lib.rs:215-307 | End-to-end refinement: a complete run writes exactly the recursive walk's matching entries, as a multiset, for any threads and interleaving. |
| EndToEnd.CapIsExact | src/lib.rs:168-195 | With `--max-results N`, N > 0, every uninterrupted run that ends writes min(N, matching) entries. |
| EndToEnd.CapIsNeverExceeded | src/lib.rs:190-193 | With `--max-results N`, N > 0, no state of any run holds more than N results. |
| EndToEnd.UncappedWritesAll | src/lib.rs:168-195 | Without `--max-results`, or with 0, every uninterrupted run that ends writes all matching entries. |
| EndToEnd.CompleteMeans | src/lib.rs:168-195 | Complete runs, over the option: an uninterrupted end with fewer results than `--max-results`, if that is set and not 0. |
| EndToEnd.PoolSizes | src/walk.rs:159 | In every reachable state there are threads - 1 walkers, at least one, and at most four batches a walker in the channel, none with one thread. |
| EndToEnd.OrderIsKept | src/lib.rs:72-99 | Conservation in order, in every reachable state: a walker's accepted entries are those written, in hand, in the channel, discarded and held, in this order; nothing is discarded below the cap, and then all of it is written in the end, even of an interrupted run. |
| EndToEnd.WrittenIffFound | src/lib.rs:215-307 | An entry is written iff the filters keep it and it is a readable given path or is found along a walked route from one; exclusion never removes a root. |
| EndToEnd.WrittenOncePerRoot | src/lib.rs:200-202 | A matching entry is written once for every distinct root it is found under. |
| EndToEnd.NoPathTwice | src/walk.rs:342-373 | Unless one given path lies inside another, no state of any run holds two results with one path. |
| EndToEnd.EveryDirectoryIsRead | src/walk.rs:321-371 | A complete run reads every directory that k permitted steps from a given path reach, k below the option `--max-depth`, at depth at most k. |
| Promise.ReadsExactly | src/walk.rs:283-374 | A complete run reads a directory at depth n iff n is below `--max-depth` if set and, from a given path with a readable identity, n non-excluded records lead to it through directories and, if followed, links, all on the device the path's stat reports if one filesystem is asked for, none twice when links are followed. |
| Promise.NothingUnread | src/walk.rs:321-371 | Such a trail need not be free of revisits for its end to be read, no deeper than the trail is long. |
| Promise.MatchesAreFound | src/walk.rs:258-374 | The matching entries are those the filters keep among the given paths, each as a directory at depth 0, and the non-excluded records, dots aside, of the directories such trails end in, no deeper than `--max-depth`; a record's type is the stream's or else the fallback stat's, its path the given one with the names met. |
| Promise.WritesExactly | src/lib.rs:215-307 | A complete run writes an entry iff it is one of these. |
| Promise.WrittenOncePerPath | src/lib.rs:200-202 | It is written as often as there are distinct given paths it is found under. |
| Request.KeepMeans | src/lib.rs:240-303 | The cascade keeps an entry iff it is deep enough, of a wanted type and empty if so asked, the `--name` matcher accepts the name it goes by (its last component, or a path ending in none as spelled), `--regex` and `--path` accept the path, `--lname` the target of what is a link, no metadata predicate is set or stat answers and the answer is as they ask, and the access check passes. |
| Request.VerdictMeans | src/meta.rs:502-544 | The stat-based verdict, each predicate in its own terms: size intervals, clamped counts, age intervals of the 64-bit difference, mode bits, strictly newer times, unresolvable owners. |
| Request.AgeMeans | src/meta.rs:191-198 | On every clock reading the age test is the stated interval of the seconds 64 bits hold. |
| Request.SizeMeans | src/meta.rs:101-138 | The size test is the stated interval, in bytes or in begun units. |
| Request.PermMeans | src/meta.rs:235-244 | The mode test by kind, bit by bit. |
| Request.NamedByRecord | src/walk.rs:44-49 | What the walk shows is judged by `--name` by the name of its record, which no file system lets be a slash. |
| Request.NamedAsGiven | src/walk.rs:44-49 | A given path is judged by the name it ends in or, ending in none, as it is spelled. |
| Independence.FiltersNeverPrune | src/lib.rs:205-206 | Complete runs that differ in filters, threads or throttling read the same directories equally often. |
| Independence.FilteringSelects | src/lib.rs:240-303 | Narrower filters write exactly those of the wider filters' entries that pass, equally often. |
| Independence.SameAnswer | src/lib.rs:215-307 | Any two complete runs of one request write the same multiset, whatever threads, limiter and interleaving. |
| Independence.PruningIsInvisible | src/walk.rs:335-337 | A walker that queues every subdirectory and relies on the depth check performs the same events and writes the same entries as the one that does not queue those which could not read. |
| Independence.TokensAreOpens | src/walk.rs:296-311 | Along every throttled schedule, with pruning or without, tokens granted equal opens tried plus walkers in between; at the end they are equal. |
| Answer.RunAnswersRequest | src/lib.rs:240-303 | A complete run writes an entry iff it is as the command line asks, filter by filter, and a given path or found below one. |
| Answer.StdoutIsTheAnswer | src/lib.rs:165-198 | Split at the separator, a complete run's output is the matching entries' texts, each as often as it matches, iff no matching entry's text contains the separator. |
| Answer.PathsReadBack | src/lib.rs:165-198 | For paths as the program spells them: with a separator other than the slash that occurs in no given path and no name of the snapshot, a complete run's output splits into the matching entries' paths. |
| Answer.SpellRoundTrip | src/walk/unix.rs:149 | Joined with slashes and read back component by component, a path of nonempty slash-free components, absolute or not, is itself. |
| Answer.PathsRecovered | src/lib.rs:165-198 | Given paths and names being of such components, every matching entry's path can be read back from its text. |
| Answer.SomeRunIsComplete | src/lib.rs:215-307 | A complete run exists iff fewer entries match than `--max-results`, if set and not 0. |
| Progress.MeasureFalls | src/walk.rs:214-229 | No action raises the measure, and every action but idle spinning lowers it. |
| Progress.RunsTerminate | src/walk.rs:214-229 | One bound on the non-spinning actions of all schedules. |
| Progress.SpinApproaches | src/walk.rs:232-246 | While there is a reason to leave or a task to take, every idle spin, a lost race included, brings its worker nearer to it. |
| Progress.CanAdvance | src/lib.rs:82-99 | From every state before the end at most three rounds of idle spins, lost races included, lead to an action that lowers the measure, without an interrupt. |
| Progress.CanFinish | src/lib.rs:306-307 | Every state satisfying the invariant can be run to the end without an interrupt. |
| Fairness.OnlyTheEndIsStuck | src/lib.rs:163-198 | No deadlock: a reachable state is the end iff no thread can act in it, be it on a full channel, waiting for batches, throttled or idle. |
| Fairness.EndlessStarves | src/walk.rs:214-229 | A run that never stops starves somebody: from some point on some thread could always act and never does. |
| Fairness.FairRunsEnd | src/walk.rs:193-230 | Termination: no weakly fair run goes on for ever. |
| Frontier.PileReachable | src/walk.rs:232-246 | In every reachable state each walker's tasks are stacked by depth, oldest to newest, one parent a level, and the injector holds roots only. |
| Frontier.OnePerDepth | src/walk.rs:315-317 | A walker pins at most one directory of each depth. |
| Frontier.PinnedDescriptors | src/lib.rs:312-315 | The frontier bound: at most workers x levels pinned directories in every reachable state, levels being one more than the deepest directory opened so far; a directory counts until its entry loop is left, a task's parent until the task is dropped after the decrement. |
| Frontier.PinnedWithinLimit | src/walk.rs:289-294 | With a depth limit m the bound is workers x m. |
| Frontier.PinnedOnAnyTree | src/lib.rs:312-315 | For every job, whatever its options and links, the bound is workers x (directories + 1). |
| Frontier.ReleasedByWork | src/walk.rs:207-230 | A walk nobody stopped has released every anchor by its own work when its workers have left, before it returns and drops its queues. |
| Frontier.AllReleased | src/walk.rs:159-205 | At the end of every run, interrupted and capped ones included, every anchor is released. |
| WorkerCode.Pool.Interfere | src/walk.rs:193-204 | What other threads may do to a walker between its steps: take its oldest tasks, nothing else. |
| WorkerCode.Pool.FinishSend | src/lib.rs:82-93 | A blocked send ends: everything the walker accepted has then left it and is written, in hand, or in the channel, or lost, the last only when the cap is written. |
| WorkerCode.Pool.FindTask | src/walk.rs:232-246 | The task taken was the newest own one, else the injector's oldest, else, the injector seen empty or a race lost, a peer's oldest; after a lost race a fruitless round is tried again; empty-handed only after each of these queues was seen empty. |
| WorkerCode.Pool.Steal | src/walk.rs:238-245 | Retrying ends: a race is lost only to others' work, so the rounds of stealing lower the measure. |
| WorkerCode.Pool.AfterVisit | src/walk.rs:355-360 | After the visitor the walker goes on, or has stored `quit` and is done with the task. |
| WorkerCode.Pool.Process | src/walk.rs:258-281 | Unless told to stop, the walker accepts exactly the root's own entry, if kept, and the kept entries of the directory's stream, and pushes exactly its children, all in order, under any interference. |
| WorkerCode.Pool.Descend | src/walk.rs:283-301 | The same below the gates; a directory too deep, on another device, its own ancestor or not openable contributes nothing. |
| WorkerCode.Pool.PassGates | src/walk.rs:289-301 | The walker goes on to the open iff the depth is below `--max-depth`, if set, unless the throttle refuses it because `quit` is set. |
| WorkerCode.Pool.ReadDirectory | src/walk.rs:303-337 | A failed open, device or cycle check contributes nothing; otherwise the whole stream is accepted and pushed as far as kept and descended into. |
| WorkerCode.Pool.ReadRecord | src/walk.rs:342-373 | One record contributes its entry iff it is shown and kept, and its child iff it is to be entered; false only after `quit` is stored. |
| WorkerCode.Pool.QueueChild | src/walk.rs:361-371 | The increment of `pending` comes before the push, and the child is then the newest own task. |
| WorkerCode.Pool.RunWorker | src/walk.rs:207-230 | The worker returns only on quit or with nothing pending and no task anywhere, with all it accepted handed over; otherwise it has completed all its rounds. |
| Output.BatchSender.Push | src/lib.rs:72-79 | Buffers, or with the 256th entry sends exactly the full batch; says stop iff that send met a closed channel. |
| Output.BatchSender.FlushFull | src/lib.rs:86-92 | Delivers the batch, or counts it as lost and notes the closed channel. |
| Output.BatchSender.Flush | src/lib.rs:82-93 | Empties the buffer; loses nothing while the channel is open. |
| Output.BatchSender.Drop | src/lib.rs:96-100 | With the channel open, everything ever pushed has been delivered, in order. |
| Output.PrintBatch | src/lib.rs:177-195 | One batch's entries as far as the cap lets them, each followed by the separator. |
| Output.PrintLoop | src/lib.rs:176-195 | The output is the rendering of the beginning of all batches, as long as it can be without exceeding N entries, and the loop reports whether it stopped at N. |
| Output.OutputReadsBack | src/lib.rs:165-166 | Rendered texts split back into themselves iff none contains the separator. |
| Seeding.UniquePaths | src/lib.rs:200-202 | The loop over a seen-set computes the deduplication. |
| Seeding.UniqueKeepsFirsts | src/lib.rs:200-202 | Deduplication keeps exactly the given paths, none twice, in order of first occurrence. |
| Seeding.Seed | src/walk.rs:163-183 | The injector holds one task each distinct given path whose identity can be read, at depth 0 and with the device stat reports, and nothing else; `pending` is their number, and both are as in the machine's first state. |
| Leaf.ForEachEntry | src/walk/unix.rs:127-154 | The callback is shown the stream's resolvable entries in order, up to the first read error and no further than its first refusal. |
| Leaf.StopsOnce | src/walk/unix.rs:149-151 | That stopping point is unique. |
| Leaf.VisibleIsListing | src/walk/unix.rs:132-146 | What is shown is what the snapshot's records show. |
| Leaf.WalkAdmitsShown | src/walk.rs:343-349 | The walk admits of a record what the leaf shows, unless its name is excluded. |
| Leaf.ShowItem | src/walk/unix.rs:134-151 | One item: shown iff it is no dot entry and the stream, or if that does not know a stat, gives a type, and then under that type. |
| Leaf.AccessFlags | src/walk/unix.rs:262-279 | The access check asks for exactly the requested kinds. |
| Visitor.Visitor.CheckEarly | src/lib.rs:244-273 | The cascade before the stat is the conjunction of its stages. |
| Visitor.Visitor.CheckMeta | src/lib.rs:275-292 | The stat stage gives the verdict on the entry's real metadata, whatever the leaf says about fields not asked for and whatever is memoized. |
| Visitor.Visitor.Visit | src/lib.rs:240-302 | Exactly the kept entries are pushed; Quit iff shutdown or a full batch met a closed channel. |
| Visitor.Visitor.VisitAs | src/lib.rs:240-302 | Run beside the machine's walker, the visitor ends with that walker's batch and log after its visitor step and send, has delivered the batch it blocks on, and says Quit iff that walker is quitting. |
| Comparisons.ClampBoundary | src/meta.rs:92-98 | Clamping preserves the verdict iff the comparison is `-N`, N is below the signed maximum, or the value is within it. |
| Comparisons.ClampCounterexample | src/meta.rs:92-98 | A value and thresholds for which it does not. |
| Comparisons.ComparisonRoundTrip | src/meta.rs:70-82 | Printing and parsing is the identity iff the comparison is not an exact negative number. |
| Comparisons.ParsableComparisons | src/meta.rs:70-82 | Some text denotes a comparison iff it is not an exact negative number. |
| NumberTexts.I64Texts | src/meta.rs:79-80 | Exactly the decimal texts of 64-bit numbers are accepted, with zeros in front, a plus before what is not negative and a minus before what is not positive. |
| NumberTexts.ComparisonTexts | src/meta.rs:70-82 | A text is +N, -N or N iff after its first sign, if any, it is such a number. |
| NumberTexts.SizeTextsAre | src/meta.rs:116-133 | A text is a size iff it is a comparison before c, k, M, G or T, the unit being that power of 1024. |
| Comparisons.SizeTexts | src/meta.rs:116-133 | The k-th suffix of c, k, M, G, T counts in units of 1024 to the k. |
| Comparisons.SizeIntervals | src/meta.rs:101-138 | With rounding up, N, +N and -N of a unit above a byte are exactly the size intervals ((N-1)u, Nu], above Nu, up to (N-1)u. |
| Comparisons.SizeTrichotomy | src/meta.rs:135-137 | Exactly one of N, +N, -N holds, for every N, unit and size. |
| Comparisons.AgeThresholds | src/meta.rs:191-198 | Without overflow, for every threshold: +N iff age at least N+1 units, -N iff below N units, N iff in between, 0 iff within one unit either way, and mirrored for negative N. |
| Comparisons.WrapBoundary | src/meta.rs:197 | The wrapping difference is the real one iff that fits 64 bits. |
| Comparisons.OverflowVerdict | src/meta.rs:191-198 | For every clock reading since the epoch and every threshold, exactly when a test gives the verdict on the real age: without overflow, or when real and wrapped age fall on one side of the threshold. |
| Comparisons.OrdinaryThresholds | src/meta.rs:191-198 | For thresholds of at most 2^63 - 1 seconds, +N and -N are right iff there is no overflow, and N > 0 is always right. |
| Comparisons.AgeCounterexample | src/meta.rs:197 | An input judged wrong. |
| Perm.ClauseEffect | src/meta.rs:313-350 | A clause gives each of the twelve bits it touches its value and leaves the others. |
| Perm.LastWriterWins | src/meta.rs:313-352 | After all clauses a bit is what the last clause touching it gives, clear if none does. |
| Perm.FoldInRange | src/meta.rs:267-353 | A symbolic mode never exceeds 0o7777. |
| Perm.ClauseRoundTrip | src/meta.rs:270-312 | Reading a clause and printing it are inverse to each other. |
| Perm.ParserMeetsGrammar | src/meta.rs:267-353 | A text is accepted with a mode iff it is the text of a nonempty clause list whose fold from 0 is that mode. |
| Perm.TextIsInjective | src/meta.rs:267-353 | The grammar is unambiguous. |
| Perm.CommaComposes | src/meta.rs:269 | `s1,s2` applies the clauses of s2 to the result of s1. |
| Perm.ReadWho | src/meta.rs:271-283 | The who loop stops at the first other letter with the mask of those read. |
| Perm.ReadPerms | src/meta.rs:296-312 | The permission loop accepts iff all letters are permissions, and finds which occur. |
| Perm.ReadClause | src/meta.rs:269-351 | One piece is parsed and applied, or rejected, as the grammar says. |
| Perm.ParseSymbolicMode | src/meta.rs:267-353 | The parser computes the grammar's mode, or fails. |
| Perm.OctalRoundTrip | src/meta.rs:247-258 | Octal text of a number parses to it iff it is at most 7777 octal, else is rejected. |
| Perm.ModesInRange | src/meta.rs:247-260 | No accepted mode exceeds twelve bits. |
| Perm.ExactMeaning | src/meta.rs:238 | `-perm MODE`: all twelve bits agree, whatever else st_mode carries. |
| Perm.AllOfMeaning | src/meta.rs:239-240 | `-perm -MODE`: every bit of the mode is set. |
| Perm.AnyOfMeaning | src/meta.rs:241-242 | `-perm /MODE`: some bit of the mode is set, or it has none. |
| Perm.PermOption | src/meta.rs:224-243 | Parsed and matched, `/MODE` is some bit, `-MODE` every bit, `MODE` all alike, the last unless the mode text begins with a minus. |
| PermTexts.ModeTexts | src/meta.rs:247-260 | A text is a mode iff it is an octal number up to 7777, leading zeros included, and the mode its value, or the text of a nonempty list of clauses, and the mode what they make of 0. |
| PermTexts.PermTextsAre | src/meta.rs:224-233 | `/`, `-` or nothing before exactly these texts give the three forms, the last unless the text begins with a minus. |
| PermTexts.SymbolicOption | src/meta.rs:224-260 | For every nonempty list of clauses the three forms are accepted and match by some, every and all bits of what the clauses make of 0. |
| PermTexts.NumericOption | src/meta.rs:224-260 | The same for octal numbers, leading zeros included. |
| PermTexts.PermInRange | src/meta.rs:224-260 | No accepted option exceeds twelve bits. |
| MetaPredicates.Mask | src/meta.rs:470-497 | The mask requests exactly the fields the active predicates read. |
| MetaPredicates.TimeMask | src/meta.rs:475-480 | The two loops add exactly the fields of the time and newer predicates. |
| MetaPredicates.FieldsMean | src/meta.rs:470-497 | Field by field, which predicates read it. |
| MetaPredicates.Matches | src/meta.rs:502-544 | The early-exit evaluator is the conjunction of all predicates. |
| MetaPredicates.MaskIsSound | src/meta.rs:18-21 | Stat answers that agree on the masked fields get the same verdict, nouser and nogroup included. |
| MetaPredicates.ActiveIffMasked | src/meta.rs:455-466 | The stat path is on iff the mask is nonzero. |
| MetaPredicates.StatxFlags | src/walk/unix.rs:200-220 | The leaf asks for exactly the masked fields. |
| MetaPredicates.NssCache.UserExists | src/meta.rs:669-671 | The memo answers as the database would, asking it once an id and never for another kind. |
| MetaPredicates.NssCache.GroupExists | src/meta.rs:674-676 | The same for groups. |
| MetaPredicates.CachedVerdict | src/lib.rs:279-292 | The verdict is independent of the walker's history. |
| FileTypes.New | src/filetype.rs:38-62 | The mask selects exactly the wanted types; `--empty` without a file or directory selector adds both. |
| FileTypes.TypeStage | src/filetype.rs:67-73 | An entry stays iff its type is wanted and, under `--empty`, it is empty. |

## Left out

- Weak memory: atomics are sequentially consistent; the code's Relaxed loads of `quit` are covered in so far as a late load is a later step.
- crossbeam's deques, injector and bounded channel: their contracts are assumed. A steal may lose a race whenever some queue has changed since it began; a weak compare-and-swap that fails for no reason is not modelled.
- WorkerCode.Pool.RunWorker: bounded by `rounds`, because an idle worker spins for as long as the scheduler starves the others; that fair schedules end is proved of the state machine (`Fairness.FairRunsEnd`).
- Frontier.PinnedDescriptors: counts each directory's anchor; not counted are the second descriptor a directory stream uses while it is read, at most one a worker, and, an open with its checks being one step, a directory for the moment in which those turn it away.
- Output.PrintLoop: write errors, which the code ignores, and the panic of an output thread are not modelled.
- Concurrent changes of the file system, and real-directory cycles made by bind mounts: the snapshot is fixed, and acyclic unless symlinks are followed.
- The EMFILE fallback of `open_child` (src/walk/unix.rs:98-109): an open yields the same directory either way.
- Opens, stats, accessibility, link targets, emptiness and name-service lookups: fixed answers of the snapshot or of `Visitor.World`.
- Globs, regular expressions and path normalisation: predicates on names and paths.
- The token bucket inside `governor` and the sleeping in src/ratelimit.rs: a token can always be granted.
- src/args.rs, the help text and the alias table: wiring without state; parsed options are the model's input.
- src/interrupt.rs, src/sched.rs, src/main.rs and the descriptor limit: operating-system calls; a shutdown may come at any step.
- src/walk/fallback.rs: the non-Unix leaf adds nothing to the Unix leaf's contract.
