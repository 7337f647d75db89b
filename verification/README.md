# A verified model of the work queue and its neighbours

The repository's work queue (`pkg/workqueue`) hands out keys to workers. A key is an object under
`queued/`, `in-progress/` or `dead-letter/` in a storage bucket, and every move of a key is several
separate object operations. Callers, workers and collectors of orphaned keys interleave between those
operations, and any of them may stop for ever between two of them. Ownership is a lease: an expiry written
into the object's metadata and refreshed by a heartbeat. This project models that protocol, the in-memory
queue with the same interface, the dispatcher that decides what to launch, and the HTTP handler that
coalesces triggers. It also models four smaller pieces with properties over whole runs or round trips: the
pausing rate limiter, reconciler state kept in an issue comment, the truncating check-run builder, and the
URLs of pull requests and issues.

`dafny verify dfyconfig.toml` checks everything.

## How it is organised

- `Text`, `Timestamp`, `Strings`: Go's string comparison, decimal printing and parsing, RFC 3339 timestamps,
  substring search and trimming. Metadata are texts, and the code compares the texts, so order and round
  trips start here.
- `TopK`: the append, sort and truncate loop shared by both queues' `Enumerate`.
- `Inmem`, `Bucket`, `Gcs`: the two queues. A function gives the effect of each call on values; a class
  does it step by step in place and is proved to have that effect.
- `Entries`: what each operation writes into the metadata, entry by entry, and how a reader takes it.
- `Protocol`: the bucket-backed queue as a state machine in which one label is one object operation.
  `Safety`, `Necessity`, `Heartbeats`, `Metadata` and `Uninterrupted` prove what holds of its runs.
- `Refinement`, `Divergence`, `Merging`: the bucket represents the two maps, exactly where it does, and what
  follows for keys queued more than once.
- `Lease`: the heartbeat in real time.
- `Dispatcher`, `Outcomes`, `Retry`, `Rounds`, `Overlap`, `WaitingRoom`: the rounds, what becomes of a key,
  rounds that overlap, and the handler's two mutexes.
- `RateLimit`, `Check`, `CommentState`, `Urls`: the smaller pieces.

## Two hypotheses about time

The deletes at `pkg/workqueue/gcs/gcs.go` lines 408, 456, 494 and 619 carry no generation precondition. So the
protocol is safe exactly when

- H1: an owner deletes objects and refreshes its lease only while its own lease is unexpired (this includes
  the second half of `Start`), and
- H2: an orphan check, and the delete that ends the requeue it triggers, see the in-progress object that
  was listed and not a later one.

Both are switches of the state machine (`Hypotheses`), and both are needed: `Necessity.HypothesesAreExact` says
that no reachable state has lost work if and only if both are on, and
`Necessity.HypothesesAreExactForExclusion` says the same of exclusion. One direction is `Safety.NoLostWork` and
`Safety.MutualExclusion`; the other consists of runs that lose a key. `Necessity.WholeWay` shows that with both
on a key still makes its whole way through the queue. `Metadata.MetadataInvariant` needs neither. Since every
prefix of a run is a run, what holds of all reachable states holds after every single object operation.

`asked` counts the create-if-absent operations of `Queue` for a key. A callback remembers in `begun` how
many came before it began, and `answered` is the largest `begun` among callbacks that ended in
`Complete` or `Deadletter`. Work is owed while `asked` exceeds `answered`.

## What the code does that one might not expect

- In memory, one `Queue` call on a queued key raises the priority or the not-before, never both
  (`pkg/workqueue/inmem/inmem.go` lines 55-62); in the bucket it raises both. `Refinement.QueueRefines` says
  that the two agree exactly when a call does not raise both.
- A requeue with an explicit priority writes it without padding (`pkg/workqueue/gcs/gcs.go` line 393), while
  merging compares texts. The dispatcher's delayed requeue takes this path for every prioritised key. A
  priority of fewer than eight digits then beats padded ones it is lower than, and cannot be raised any
  more. Also, an undelayed requeue of a key without priority ignores an explicit priority's backoff
  and an explicit not-before. `Refinement.RequeueRefines` gives the exact condition,
  `Divergence` short runs from the empty queues, and `Merging` the consequences.
- When a queued key is queued again the later not-before wins; the comment at
  `pkg/workqueue/interface.go` lines 44-45 says the oldest does. The model follows the code.
- The heartbeat's precondition names a metageneration and no generation. A worker that has lost its key can renew
  the lease of a newer object that happens to be at the same metageneration, and the rightful owner's next
  heartbeat then fails (`Heartbeats.ForeignBeatPasses`). `Heartbeats.HypothesesAreExactForBeats` says that this is
  ruled out if and only if H1 and H2 both hold, and `Heartbeats.ForeignBeatCancels` when a loss is noticed.
- A caller blocked in the limiter's `Wait` is released early when a longer pause supersedes its channel
  (`RateLimit.WaiterIsReleased`).
- Overlapping rounds do not always keep the concurrency bound, because launched goroutines call `Start` after
  their round has returned, and `Start` looks neither at the slots nor at the not-before. `Rounds.Safe` is the
  exact condition on a state: every launched key is among the first of the ranking, one for each open slot, and
  launched keys that were delayed since fit in beside everything that is ready. `Rounds.SafeIsExact` says that
  it holds if and only if no continuation breaks the bound. For each kind of call `Rounds.Keeps` says
  when it keeps a safe state safe, again exactly (`Rounds.KeepsIsExact`): a key that arrives, wakes or is raised
  must not push a launched key off the last slot, and a key that is requeued or delayed while it is launched
  must still find a slot. Requeues of keys that are not launched a second time never hurt. `Overlap` carries all
  of this over to the in-memory queue. `Rounds.OvertakingBreaksBound`, `Rounds.RequeueBreaksBound` and
  `Rounds.DelayBreaksBound` are short runs to two keys in progress under a concurrency of one.
- A limit below the concurrency wastes slots, for every such pair of numbers (`Dispatcher.LimitIsExact`).
- A message with a state marker in it can hide or replace the committed state. `CommentState.RoundTripIsExact`
  gives the exact condition on the text before the state, which can be checked before `Commit`: it has no state
  marker, or its first one opens a block that holds the same JSON. A bare marker loses the state
  (`CommentState.BareMarkerLosesState`).
- The markers of the identity `x` are also identity markers of `x-state` and `/x-state`, which take a comment of
  `x` for their own and overwrite it (`CommentState.ClashOverwrites`). `CommentState.RecognisedExactly` says
  that these are the only identities that do.

## Model

| member | source | states |
|---|---|---|
| `Text.AtoiInvertsPadInt` | pkg/workqueue/gcs/gcs.go:82-86 | A priority written zero-padded is read back as the same number, whatever its sign and the width |
| `Text.AtoiInvertsItoa` | pkg/workqueue/gcs/gcs.go:599-609 | A number written without padding, as attempts are, is read back as the same number |
| `Text.DigitOrder` | pkg/workqueue/gcs/gcs.go:144-148 | On digit strings of one length the string comparison is the numeric one |
| `Text.PaddedOrder` | pkg/workqueue/gcs/gcs.go:82-86 | For any width w, zero-padded numbers below 10^w compare as strings exactly as they do as numbers, and equal texts are equal numbers |
| `Text.UnpaddedSortsLast` | pkg/workqueue/gcs/gcs.go:391-394 | An unpadded positive number sorts behind every padded text with a leading zero, however the numbers compare |
| `Text.PadIntLength` | pkg/workqueue/gcs/gcs.go:82-86 | Padding fills up to the width, the sign included, and never cuts |
| `Text.AtoiExactly` | pkg/workqueue/gcs/gcs.go:599-609 | A text reads as a number exactly if it is that number's digits behind an optional sign |
| `Timestamp.ParseInvertsFormat` | pkg/workqueue/gcs/gcs.go:421-428 | A written timestamp is read back as the same instant cut to its whole second for the years 1 to 9999, and not at all outside them |
| `Timestamp.FormatOrder` | pkg/workqueue/gcs/gcs.go:149-153 | Timestamps of the years 1 to 9999 compare as strings in chronological order of their seconds (section 5.1 of RFC 3339), and are equal for equal seconds only |
| `Timestamp.ParsesExactly` | pkg/workqueue/gcs/gcs.go:421-426 | A text is read as an instant exactly when that instant, a whole second of the years 1 to 9999, is written so |
| `Timestamp.EpochText` | pkg/workqueue/gcs/gcs.go:371-376 | The Unix epoch is written 1970-01-01T00:00:00Z, which fixes the shape of every timestamp |
| `Timestamp.MonthTable` | pkg/workqueue/gcs/gcs.go:87 | The lengths of the months, added up, in every year |
| `Timestamp.CivilOrder` | pkg/workqueue/gcs/gcs.go:87 | Field-by-field order of calendar dates is the order of elapsed seconds, leap years included, and distinct dates are distinct seconds |
| `TopK.SortSlice` | pkg/workqueue/gcs/gcs.go:257-266 | Sorting gives a sorted rearrangement of the same members |
| `TopK.Admit` | pkg/workqueue/gcs/gcs.go:252-269 | One turn of append, sort and truncate keeps the list an admissible first `limit` of everything seen, with ties allowed |
| `TopK.TopIsPrefixOfRanking` | pkg/workqueue/gcs/gcs.go:257-269 | Without ties the first `limit` is unique and is a prefix of the full ranking, independent of the order of iteration |
| `TopK.RankingExists` | pkg/workqueue/gcs/gcs.go:257-266 | Every finite set has a full ranking under a strict weak order, so statements about it are not empty |
| `Workqueue.BackoffIsWhole` | pkg/workqueue/gcs/gcs.go:379-388 | While the 64-bit product does not overflow, the backoff is attempts times the period, capped at the maximum, and a whole number of seconds |
| `Workqueue.BackoffOverflows` | pkg/workqueue/gcs/gcs.go:379-388 | From attempt 307445735 on the product overflows and the backoff is at first negative |
| `Inmem.WorkQueue.constructor` | pkg/workqueue/inmem/inmem.go:21-27 | A new queue is empty |
| `Inmem.WorkQueue.Queue` | pkg/workqueue/inmem/inmem.go:47-65 | Adds the key, or raises the queued key's priority, or else its not-before, and changes nothing else |
| `Inmem.WorkQueue.Enumerate` | pkg/workqueue/inmem/inmem.go:68-124 | Returns the keys in progress and, whatever order the map is walked in, a sorted list of ready keys that no ready key left out comes before |
| `Inmem.WorkQueue.Start` | pkg/workqueue/inmem/inmem.go:263-287 | Moves the key from the queue to work in progress and counts one more attempt; fails and changes nothing if the key is in progress or no longer queued |
| `Inmem.WorkQueue.RequeueWithOptions` | pkg/workqueue/inmem/inmem.go:158-202 | Puts the key back with its own or the given priority, a delay or backoff, and its attempts, raising both fields of a key queued meanwhile |
| `Inmem.WorkQueue.Complete` | pkg/workqueue/inmem/inmem.go:228-234 | Forgets the key in progress and nothing else |
| `Inmem.WorkQueue.Deadletter` | pkg/workqueue/inmem/inmem.go:210-220 | Forgets the key in progress and nothing else |
| `Inmem.BeforeIsWeakOrder` | pkg/workqueue/inmem/inmem.go:103-108 | The comparison by priority and age is a strict weak order, so sorting by it is meaningful |
| `Gcs.WorkQueue.Queue` | pkg/workqueue/gcs/gcs.go:77-115 | Creates the queued object if it is absent and otherwise merges the request into its metadata; no other object changes |
| `Gcs.WorkQueue.UpdateMetadata` | pkg/workqueue/gcs/gcs.go:117-162 | Merges priority and not-before by text comparison and writes back only if one of them rose; a request without options does nothing |
| `Gcs.WorkQueue.Enumerate` | pkg/workqueue/gcs/gcs.go:181-295 | Lists exactly the keys in progress, each once, and the first `limit` of the queued keys that are not delayed, in whatever order the bucket is walked |
| `Gcs.QueuedKey.Start` | pkg/workqueue/gcs/gcs.go:568-634 | Creates the in-progress object from the listed, possibly stale, metadata and deletes the queued one; fails without touching the bucket if the source is gone or the target exists; the handle's shared metadata is rewritten in both cases |
| `Gcs.InProgressKey.PrepareRequeue` | pkg/workqueue/gcs/gcs.go:362-394 | Rewrites the handle's metadata for the way back: no lease, last-attempted time, delay or backoff, explicit priority unpadded |
| `Gcs.InProgressKey.RequeueWithOptions` | pkg/workqueue/gcs/gcs.go:349-409 | Copies the key back or merges it into a key queued meanwhile, then deletes it from in-progress; fails without touching the bucket if it is gone |
| `Gcs.InProgressKey.Complete` | pkg/workqueue/gcs/gcs.go:438-457 | Removes the key's dead letter and its in-progress object, and reports failure exactly when the latter is missing |
| `Gcs.InProgressKey.Deadletter` | pkg/workqueue/gcs/gcs.go:460-495 | Writes the dead letter without a lease and with the failure time, then deletes the in-progress object |
| `Gcs.InProgressKey.Heartbeat` | pkg/workqueue/gcs/gcs.go:517-544 | Refreshes the lease only on the metageneration last seen, and otherwise fails and changes nothing |
| `Gcs.BeforeIsWeakOrder` | pkg/workqueue/gcs/gcs.go:257-266 | Priority, age and name order the candidates by a strict weak order |
| `Gcs.EligibleHasNoTies` | pkg/workqueue/gcs/gcs.go:257-266 | Names settle every tie among the objects of one bucket |
| `Gcs.EnumerationIsUnique` | pkg/workqueue/gcs/gcs.go:252-270 | So any two enumerations of one bucket are the same list: the first `limit` of the full ranking |
| `Entries.EnumerationOrder` | pkg/workqueue/gcs/gcs.go:257-269 | An enumeration lists higher priorities first, then older objects, then smaller names, and whatever eligible key it leaves out comes after all of these |
| `Entries.QueueWrites` | pkg/workqueue/gcs/gcs.go:82-87 | Queueing writes exactly a priority that reads back, eight characters wide unless longer, and a not-before that reads back |
| `Entries.StartWrites` | pkg/workqueue/gcs/gcs.go:592-613 | A start writes exactly a lease of fifteen minutes, the next attempt or the first after an unreadable count, and the zero not-before |
| `Entries.RequeueWrites` | pkg/workqueue/gcs/gcs.go:362-394 | A requeue writes exactly: no lease, the Unix second of the attempt, the end of the delay or backoff where there is one, and the priority asked for |
| `Entries.DeadletterWrites` | pkg/workqueue/gcs/gcs.go:475-485 | Dead-lettering takes the lease away and writes the failure time, and nothing else |
| `Entries.MergeWrites` | pkg/workqueue/gcs/gcs.go:135-153 | A merge leaves the larger text of each option, fills in a missing priority and no missing not-before, touches no other entry, and counts as an update exactly if something changed |
| `Entries.PlainRequestChangesNothing` | pkg/workqueue/gcs/gcs.go:117-133 | Queueing a queued key without options changes nothing, not even a missing priority; with an option the missing priority is filled in |
| `Entries.PatchWrites` | pkg/workqueue/gcs/gcs.go:154-160 | An update of the metadata writes the entries it names and keeps the others, and of two the later wins |
| `Entries.OrphanedExactly` | pkg/workqueue/gcs/gcs.go:412-429 | A key with a readable lease is orphaned exactly after it, and one with none or an unreadable one always |
| `Entries.DelayedExactly` | pkg/workqueue/gcs/gcs.go:242-250 | A queued key with a readable not-before is held back exactly until then, and one with none or an unreadable one never |
| `Entries.PriorityExactly` | pkg/workqueue/gcs/gcs.go:196-202 | A key without a readable priority ranks with those of priority zero |
| `Safety.NoLostWork` | pkg/workqueue/gcs/gcs.go:77-115 | Under H1 and H2, in every interleaving with any crashes, a key with a request that no finished callback began after is queued or in progress after every object operation |
| `Safety.MutualExclusion` | pkg/workqueue/gcs/gcs.go:502-547 | Under H1 and H2, at most one actor holds a key with an unexpired lease, and the in-progress object is, in instance, metadata and metageneration, the one it last wrote |
| `Safety.TimelyHeartbeatSucceeds` | pkg/workqueue/gcs/gcs.go:519-543 | Under H1 and H2 the heartbeat of a worker whose lease is unexpired never fails, so its context is not cancelled |
| `Safety.DeletesOwnInstance` | pkg/workqueue/gcs/gcs.go:408 | Under H1 and H2 every delete that ends a requeue, completion or dead-lettering hits the very instance its caller claims, although it names no generation |
| `Safety.NextKeepsInv` | pkg/workqueue/gcs/gcs.go:349-495 | Every step of every actor keeps the invariant behind the four theorems |
| `Safety.CopyKeepsInv` | pkg/workqueue/gcs/gcs.go:588-618 | The create-if-absent copy of a start gives the key an instance that no one else claims |
| `Safety.UnqueueKeepsInv` | pkg/workqueue/gcs/gcs.go:619-621 | The delete of the queued object by a starter with an unexpired lease leaves the key in progress |
| `Safety.DeleteKeepsInv` | pkg/workqueue/gcs/gcs.go:456-494 | A delete of an in-progress object by an owner in time or by a collector takes no other owner's live claim and loses no owed work |
| `Safety.RequeueKeepsInv` | pkg/workqueue/gcs/gcs.go:396-408 | A requeue, recursion on a racing delete included, has put its key back before it deletes the in-progress object |
| `Safety.ExistsKeepsInv` | pkg/workqueue/gcs/gcs.go:396-408 | So has one whose copy finds its source gone and reports that its target exists |
| `Safety.BeatKeepsInv` | pkg/workqueue/gcs/gcs.go:519-543 | A heartbeat, successful or not, keeps every claim as recent as the bucket |
| `Heartbeats.BeatIsExact` | pkg/workqueue/gcs/gcs.go:519-543 | Whatever the hypotheses: a beat at the current metageneration renews the lease by fifteen minutes, counts the metageneration up and changes nothing else; any other beat leaves the bucket as it is and cancels the worker |
| `Heartbeats.OnlyTheLiveBeat` | pkg/workqueue/gcs/gcs.go:512-518 | A cancelled worker never beats again |
| `Heartbeats.ForeignBeatCancels` | pkg/workqueue/gcs/gcs.go:524-528 | Once another worker's beat has raised the metageneration past what a worker last saw, that worker's next beat fails and cancels it, whatever runs in between, unless the object has been replaced |
| `Heartbeats.ForeignBeatPasses` | pkg/workqueue/gcs/gcs.go:524-528 | Without H1 a worker that has lost its key can renew the lease of the next worker's object at the same metageneration, and so cancel the rightful owner |
| `Heartbeats.ForeignBeatPassesWithoutH2` | pkg/workqueue/gcs/gcs.go:524-528 | So can a worker in time without H2 |
| `Heartbeats.HypothesesAreExactForBeats` | pkg/workqueue/gcs/gcs.go:524-528 | No worker ever renews a lease that is not its own if and only if H1 and H2 both hold |
| `Heartbeats.RunEvolves` | pkg/workqueue/gcs/gcs.go:588-621 | Along any run an object is replaced by a newer instance or keeps its own, and then its metageneration never falls |
| `Necessity.LostWithoutH1` | pkg/workqueue/gcs/gcs.go:615-621 | Whenever H1 is off, a reachable state has lost a key: a starter slept past its lease between its copy and its delete |
| `Necessity.LostWithoutH2` | pkg/workqueue/gcs/gcs.go:400-408 | With H1 on and H2 off a reachable state has lost a key: the slower of two collectors deleted the key of a worker with an unexpired lease |
| `Necessity.TakenWithoutH1` | pkg/workqueue/gcs/gcs.go:438-457 | Whenever H1 is off, a worker that slept past its lease can delete the key of a worker with an unexpired lease by completing |
| `Necessity.HypothesesAreExact` | pkg/workqueue/gcs/gcs.go:349-495 | No reachable state has lost work if and only if H1 and H2 both hold |
| `Necessity.HypothesesAreExactForExclusion` | pkg/workqueue/gcs/gcs.go:412-429 | Owners with an unexpired lease exclude each other and hold what they last wrote, in every reachable state, if and only if H1 and H2 both hold |
| `Necessity.WholeWay` | pkg/workqueue/gcs/gcs.go:438-457 | Under both hypotheses a key can be queued, started and completed, leaving an empty bucket and nothing owed |
| `Metadata.MetadataInvariant` | pkg/workqueue/gcs/gcs.go:82-87 | In every reachable bucket, hypotheses or not, queued objects have a readable priority and not-before and no lease; in-progress objects a readable lease, at least one attempt and the zero not-before; dead letters no lease and a readable failure time |
| `Metadata.StartMetaShape` | pkg/workqueue/gcs/gcs.go:592-613 | A start turns any well-formed queued metadata, however stale, into well-formed in-progress metadata |
| `Metadata.RequeueMetaShape` | pkg/workqueue/gcs/gcs.go:362-394 | A requeue makes well-formed queued metadata, even when the backoff product wraps around |
| `Metadata.MergeShape` | pkg/workqueue/gcs/gcs.go:135-153 | Merging two well-formed queued metadata is well-formed |
| `Metadata.RefreshShape` | pkg/workqueue/gcs/gcs.go:523-533 | A lease refresh keeps in-progress metadata well-formed |
| `Uninterrupted.QueueAlone` | pkg/workqueue/gcs/gcs.go:77-115 | Undisturbed, the protocol steps of `Queue` leave the bucket as the sequential call does |
| `Uninterrupted.StartAlone` | pkg/workqueue/gcs/gcs.go:568-634 | Undisturbed, the protocol steps of `Start` leave the bucket as the sequential call does, also when they fail |
| `Uninterrupted.RequeueAlone` | pkg/workqueue/gcs/gcs.go:349-409 | Undisturbed, the protocol steps of a requeue leave the bucket as the sequential call does |
| `Uninterrupted.CompleteAlone` | pkg/workqueue/gcs/gcs.go:438-457 | Undisturbed, the protocol steps of `Complete` leave the bucket as the sequential call does |
| `Uninterrupted.DeadletterAlone` | pkg/workqueue/gcs/gcs.go:460-495 | Undisturbed, the protocol steps of `Deadletter` leave the bucket as the sequential call does |
| `Uninterrupted.CompletedCallback` | pkg/workqueue/dispatcher/dispatcher.go:150-153 | A callback that ends in `Complete` leaves the bucket as that call does, and the requests it knew of are answered |
| `Uninterrupted.DeadletteredCallback` | pkg/workqueue/dispatcher/dispatcher.go:130-136 | A callback that ends in `Deadletter` leaves the bucket as that call does, and the requests it knew of are answered |
| `Uninterrupted.RequeuedCallback` | pkg/workqueue/dispatcher/dispatcher.go:143-147 | A callback that ends in a requeue leaves the bucket as that call does, and answers nothing |
| `Uninterrupted.CollectAlone` | pkg/workqueue/dispatcher/dispatcher.go:61-71 | A collector requeues what it listed without options exactly if it is orphaned |
| `Uninterrupted.QueueResumes` | pkg/workqueue/gcs/gcs.go:106-112 | A `Queue` whose queued key disappears before its merge starts over and creates the key with what was asked |
| `Uninterrupted.RequeueResumes` | pkg/workqueue/gcs/gcs.go:400-408 | So does a requeue, before it deletes the in-progress object |
| `Uninterrupted.ExistsAlone` | pkg/workqueue/gcs/gcs.go:396-408 | A requeue whose copy reports an existing target although its source is gone merges into the target |
| `Refinement.PriorityOrder` | pkg/workqueue/gcs/gcs.go:144-148 | Eight-digit priorities compare as texts exactly as they do as numbers |
| `Refinement.NotBeforeOrder` | pkg/workqueue/gcs/gcs.go:149-153 | Whole-second not-befores compare as texts exactly as they do as instants |
| `Refinement.MergeIsJoin` | pkg/workqueue/gcs/gcs.go:117-162 | A merge leaves the larger priority and the later not-before and keeps the attempts; it writes exactly when one of them rose |
| `Refinement.QueueRefines` | pkg/workqueue/inmem/inmem.go:55-63 | The bucket's `Queue` does what the in-memory one does if and only if the call does not raise both fields of a queued key |
| `Refinement.QueueWritesExactly` | pkg/workqueue/gcs/gcs.go:154-160 | Queueing a queued key writes to the bucket, once, if and only if it raises its priority or its not-before |
| `Refinement.StartRefines` | pkg/workqueue/inmem/inmem.go:263-287 | The bucket's `Start` succeeds exactly when the in-memory one does, and then leaves the same queue, work in progress and attempts |
| `Refinement.RequeueRefines` | pkg/workqueue/inmem/inmem.go:158-202 | The bucket's requeue does what the in-memory one does if and only if it neither writes a short explicit priority nor skips a not-before, for every printable option |
| `Refinement.FinishRefines` | pkg/workqueue/inmem/inmem.go:210-234 | The bucket's `Complete` and `Deadletter` leave the same queue and work in progress as the in-memory ones |
| `Refinement.EnumerateRefines` | pkg/workqueue/inmem/inmem.go:86-123 | Whatever the bucket enumerates, the in-memory queue could have enumerated, with the same priorities, not-befores and attempts |
| `Refinement.UnpaddedIsPadded` | pkg/workqueue/gcs/gcs.go:391-394 | Leaving out the padding makes no difference exactly for eight-digit priorities |
| `Refinement.StepSimulates` | pkg/workqueue/conformance/conformance.go:81-100 | Each call the queues agree on keeps the bucket a representation of the maps and every handle, stale or owned, saying the same |
| `Refinement.RunsSimulate` | pkg/workqueue/conformance/conformance.go:81-100 | So does every run of such calls, of any length |
| `Divergence.RunsFromEmptyAgree` | pkg/workqueue/conformance/conformance.go:81-100 | From the empty queues, after any run of agreed calls the bucket represents the maps and both have the same owners |
| `Divergence.QueuesPart` | pkg/workqueue/inmem/inmem.go:55-63 | Two `Queue` calls on an empty queue, the second raising both fields, leave the two queues different |
| `Divergence.RequeuesPart` | pkg/workqueue/dispatcher/dispatcher.go:115-123 | The dispatcher's own delayed requeue of a key of priority 1 leaves the two queues different |
| `Merging.QueueAllIsJoin` | pkg/workqueue/gcs/gcs.go:117-162 | Any sequence of `Queue` calls on a queued key leaves the maximum of its own and all requested priorities and not-befores |
| `Merging.QueueOrderIrrelevant` | pkg/workqueue/gcs/gcs.go:117-162 | Neither the order nor the repetition of the calls matters |
| `Merging.DelayedRequeueOverwritesPriority` | pkg/workqueue/gcs/gcs.go:391-405 | Merging an unpadded short priority overwrites a short one even if it is lower; the merge is a maximum if and only if it is not lower or its text loses |
| `Merging.UnpaddedPriorityIsStuck` | pkg/workqueue/gcs/gcs.go:144-148 | After that a `Queue` call with a short priority never raises it; the merge is a maximum if and only if there was nothing to raise or the text wins |
| `Lease.TicksOnTime` | pkg/workqueue/gcs/gcs.go:507-517 | When calls are fast enough no heartbeat is late, in a run of any length |
| `Lease.RenewedOrCancelledInTime` | pkg/workqueue/gcs/gcs.go:502-547 | Then the owner has renewed its lease or been cancelled before anyone can see the key as orphaned, although the expiry is cut to whole seconds |
| `Lease.LateRun` | pkg/workqueue/gcs/gcs.go:597-598 | With slower calls there is a run in which the key looks orphaned too early |
| `Lease.MarginIsExact` | pkg/workqueue/gcs/gcs.go:412-429 | All runs are safe if and only if three calls and the second lost to printing fit into two refresh intervals; five minutes leave each call at least 199 seconds |
| `Lease.LeaseOfThreeIntervals` | pkg/workqueue/gcs/gcs.go:597-598 | A started key, and a refreshed one, is orphaned exactly after fifteen minutes, cut to the second |
| `Lease.WrittenMarginIsExact` | pkg/workqueue/gcs/gcs.go:502-547 | For the metadata that starts and heartbeats write: all runs keep the lease, or end it in time, if and only if three calls and the second lost to printing fit into ten minutes |
| `Dispatcher.Round` | pkg/workqueue/dispatcher/dispatcher.go:61-106 | Requeues exactly the orphans and launches exactly the first idle candidates, one for each open slot and none beyond the concurrency |
| `Dispatcher.HandleAsync` | pkg/workqueue/dispatcher/dispatcher.go:52-106 | On the enumerated bucket, requeues every orphaned key once and no other, and launches the keys the ideal scheduler would choose from all eligible keys |
| `Dispatcher.TruncateThenSkip` | pkg/workqueue/dispatcher/dispatcher.go:82-98 | With the limit at least the concurrency, truncating before skipping the active keys wastes no slot and changes no choice |
| `Dispatcher.RoundIsIdeal` | modules/workqueue/cmd/dispatcher/main.go:57-87 | With the limit at least the concurrency, as wired there, a round launches the first (concurrency - active) of all eligible idle keys in the full order |
| `Dispatcher.SmallLimitWastesSlots` | pkg/workqueue/dispatcher/dispatcher.go:82-98 | For every limit below the concurrency there is a queue on which a slot stays empty although an idle key waits |
| `Dispatcher.LimitIsExact` | pkg/workqueue/dispatcher/dispatcher.go:82-98 | Truncating first changes no round, whatever the queue and the active keys, if and only if the limit is at least the concurrency |
| `Dispatcher.Process` | pkg/workqueue/dispatcher/dispatcher.go:101-155 | On the in-memory queue, starts the key and then completes, requeues or dead-letters it by the callback's result, its attempts and the retry limit |
| `Dispatcher.ProcessOnBucket` | pkg/workqueue/dispatcher/dispatcher.go:101-155 | The same on the bucket |
| `Outcomes.OutcomeInMemory` | pkg/workqueue/dispatcher/dispatcher.go:101-155 | For every outcome, attempt and limit: a key that cannot start is left alone; else it is invoked with the next attempt, no other key is touched, and it is gone exactly if it succeeded, failed for good or is at the limit without a requested delay; otherwise it is queued with its priority and attempts, and not before the delay, the backoff or at once |
| `Outcomes.OutcomeOnBucket` | pkg/workqueue/dispatcher/dispatcher.go:101-155 | The same on the bucket, with the dead letter: gone after success, written with its failure time at the limit, untouched by a requeue |
| `Retry.RoundCountsAttempt` | pkg/workqueue/dispatcher/dispatcher.go:126-148 | A failing round carries the next attempt; below the limit the key waits for its capped backoff, at the limit it is gone |
| `Retry.RetryBudget` | pkg/workqueue/dispatcher/dispatcher.go:129-148 | Whatever the times of the rounds, the i-th invocation carries attempt i, there are never more than the limit, and the key is gone exactly when the budget is used up |
| `Retry.BudgetIsUsed` | pkg/workqueue/inmem/inmem.go:158-202 | With rounds far enough apart every round invokes the callback until exactly the limit is reached |
| `Retry.FailingRoundRefines` | pkg/workqueue/gcs/gcs.go:349-495 | A failing round does the same on the bucket as in memory, and at the limit leaves a dead letter |
| `Retry.GcsRetryBudget` | pkg/workqueue/gcs/gcs.go:460-495 | So the bucket has the same budget, which ends in `dead-letter/` and nowhere else |
| `Rounds.SafeIsExact` | pkg/workqueue/dispatcher/dispatcher.go:52-106 | A state is safe if and only if no continuation of rounds, starts, finishes and calls that meet their conditions has more keys in progress than the concurrency |
| `Rounds.KeepsIsExact` | pkg/workqueue/inmem/inmem.go:47-65 | A step from a safe state leads to a safe state if and only if it meets its own condition: rounds, starts and finishes always, arrivals, requeues, wakes, delays and raises each under its guard |
| `Rounds.OverlappingRoundsKeepBound` | pkg/workqueue/dispatcher/dispatcher.go:52-106 | In every interleaving in which each arrival, requeue, wake, delay and raise meets its condition the keys in progress stay within the concurrency |
| `Rounds.UnsafeBreaks` | pkg/workqueue/dispatcher/dispatcher.go:84-106 | From any other state rounds and starts alone lead over the bound |
| `Rounds.UnkeptStepBreaksBound` | pkg/workqueue/dispatcher/dispatcher.go:84-106 | So they do after the first step that does not meet its condition |
| `Rounds.DispatchKeeps` | pkg/workqueue/dispatcher/dispatcher.go:77-106 | A round launches the head of the ranking, one key for each open slot, and keeps a safe state safe |
| `Rounds.StartKeeps` | pkg/workqueue/inmem/inmem.go:263-287 | A start keeps a safe state safe, also of a delayed key and also if it lost the race |
| `Rounds.EnterKeeps` | pkg/workqueue/inmem/inmem.go:50-54 | A key that becomes ready, whether new, requeued or woken, keeps a safe state safe if and only if it pushes no launched key off the last slot and fits in itself |
| `Rounds.PostponeKeeps` | pkg/workqueue/inmem/inmem.go:180-200 | A key that becomes delayed, whether new, requeued or ready before, keeps a safe state safe if and only if it is not launched or there is room for everything ready and launched |
| `Rounds.RaiseKeeps` | pkg/workqueue/inmem/inmem.go:55-58 | Raising a queued key keeps a safe state safe if and only if it pushes no launched key off the last slot |
| `Rounds.OrderlyLaunchesAreHead` | pkg/workqueue/dispatcher/dispatcher.go:52-106 | When keys arrive behind the others, not launched, and none goes back, the launches in flight are a prefix of the ranking with room for all of them |
| `Rounds.OvertakingBreaksBound` | pkg/workqueue/dispatcher/handler.go:60-70 | A key that arrives ahead of a launched one is launched beside it: two in progress under a concurrency of one |
| `Rounds.RequeueBreaksBound` | pkg/workqueue/dispatcher/handler.go:60-70 | A key launched twice and requeued behind another between its starts takes a second slot |
| `Rounds.DelayBreaksBound` | pkg/workqueue/inmem/inmem.go:59-63 | A launched key that is queued again with a later not-before is started all the same, beside the key launched in its place |
| `Overlap.StepIsRun` | pkg/workqueue/inmem/inmem.go:47-202 | Every call of the in-memory queue, and every passage of time, is a run of the ranking model's steps, which meet their conditions if and only if the call is harmless |
| `Overlap.RoundLaunches` | pkg/workqueue/inmem/inmem.go:86-112 | Whatever an enumeration answers, a round launches what the ranking model's round does |
| `Overlap.RaisesInRanking` | pkg/workqueue/inmem/inmem.go:55-63 | Queueing a ready key again moves it forward in the ranking or leaves it in place |
| `Overlap.HarmlessIsExact` | pkg/workqueue/inmem/inmem.go:47-202 | From a safe state a call of the in-memory queue leads to a safe state if and only if it is harmless |
| `Overlap.QueueKeepsBound` | pkg/workqueue/dispatcher/dispatcher.go:52-106 | In every interleaving of rounds, starts and harmless calls, requeues, delays and duplicates included, the work in progress of the in-memory queue stays within the concurrency |
| `Overlap.SafeQueueIsExact` | pkg/workqueue/dispatcher/dispatcher.go:52-106 | A state of the in-memory queue is safe if and only if no harmless continuation breaks the bound; in any other state its own enumerations and starts may |
| `WaitingRoom.OneDispatchesOneWaits` | pkg/workqueue/dispatcher/handler.go:37-58 | In every interleaving at most one request holds the dispatch lock and at most one occupies the waiting room |
| `WaitingRoom.NoLostTrigger` | pkg/workqueue/dispatcher/handler.go:37-75 | An answered request was followed by a dispatch that began after it arrived, or a request that has yet to begin its dispatch is present and bound to |
| `WaitingRoom.NoDeadlock` | pkg/workqueue/dispatcher/handler.go:37-75 | While a request is unanswered some request can take a step |
| `WaitingRoom.StepsAreBounded` | pkg/workqueue/dispatcher/handler.go:37-75 | Without new arrivals only so many steps remain, in any interleaving |
| `WaitingRoom.QuietMeansServed` | pkg/workqueue/dispatcher/handler.go:37-75 | When no step is left every request is answered and a dispatch began after each of them arrived |
| `WaitingRoom.AdmittedExactly` | pkg/workqueue/dispatcher/handler.go:39-46 | A request dispatches at once if no one does, waits if the room is empty, and is answered at once if it is not |
| `WaitingRoom.LoneRequest` | pkg/workqueue/dispatcher/handler.go:60-75 | A lone request dispatches, lets go of its lock before it waits for the round, and is answered |
| `WaitingRoom.OccupantGoesOn` | pkg/workqueue/dispatcher/handler.go:56-57 | The occupant leaves the room only once it holds the dispatch lock, so that for a moment it holds both, and then dispatches |
| `RateLimit.Limiter.PauseFor` | modules/github-bots/sdk/ratelimit.go:153-179 | Extends the pause, closing the channel it supersedes, or does nothing if a longer pause is in force |
| `RateLimit.Limiter.Close` | modules/github-bots/sdk/ratelimit.go:158-162 | Is only ever asked to close an open channel, so that closing cannot panic |
| `RateLimit.Limiter.Expire` | modules/github-bots/sdk/ratelimit.go:169-176 | A timer opens the gate if its channel is current and otherwise changes nothing |
| `RateLimit.Limiter.Wait` | modules/github-bots/sdk/ratelimit.go:137-148 | A caller blocks on the current channel, which is open, exactly when there is one |
| `RateLimit.PauseGate` | modules/github-bots/sdk/ratelimit.go:137-179 | After `PauseFor(d)` at t the gate is shut at every instant before t+d, under any later pauses and late timers |
| `RateLimit.PauseUntilIsMaximum` | modules/github-bots/sdk/ratelimit.go:156-159 | While the gate is shut the pause ends at the largest instant of a call plus its duration, over the calls since the gate last opened, read off the run |
| `RateLimit.PauseEndsInTime` | modules/github-bots/sdk/ratelimit.go:153-179 | A pause that ends after all others can be over at the instant asked for, when its timer leaves the gate open |
| `RateLimit.OpensExactlyFrom` | modules/github-bots/sdk/ratelimit.go:165-177 | No timer opens the gate before the latest end asked for, and from then on the current one can |
| `RateLimit.ClosedExactlyOnce` | modules/github-bots/sdk/ratelimit.go:158-176 | Every channel but the current one is closed, and no step closes a closed one |
| `RateLimit.WaiterIsReleased` | modules/github-bots/sdk/ratelimit.go:142-148 | A blocked caller is released exactly by its channel's timer or by a longer pause, in the second case with the gate still shut |
| `Check.Builder.Writef` | modules/github-bots/sdk/check/check.go:60-73 | The text is everything written so far if that fits, and otherwise its first bytes with the message behind them |
| `Check.ClipAbsorbs` | modules/github-bots/sdk/check/check.go:66-72 | Cutting an already cut text with more behind it is cutting the whole: the old message is itself cut off |
| `Check.IncrementalEqualsOneShot` | modules/github-bots/sdk/check/check.go:60-73 | After any sequence of calls the text is the whole if it fits and otherwise its head with the message |
| `Check.TextIsCutOnce` | modules/github-bots/sdk/check/check.go:60-73 | After any sequence of calls: the whole text if it fits, and otherwise its first bytes and the message, of the maximal length |
| `Check.TruncatedIsFinal` | modules/github-bots/sdk/check/check.go:60-73 | Once cut, the text has the maximal length and never changes again |
| `Strings.TrimRecovers` | pkg/githubreconciler/state.go:154-159 | Trimming recovers a text without outer white space from any white space around it |
| `CommentState.FirstOccurrence` | pkg/githubreconciler/state.go:143-147 | The first marker found is the one printed: none before it, and none straddling the seam |
| `CommentState.NoEndMarkerInside` | pkg/githubreconciler/state.go:149-152 | The wrapped JSON contains no end marker |
| `CommentState.Unwrap` | pkg/githubreconciler/state.go:154-159 | Trimming and stripping the wrapper leaves exactly the JSON |
| `CommentState.ExtractInvertsBuild` | pkg/githubreconciler/state.go:138-167 | Extracting from a built comment recovers the JSON |
| `CommentState.RoundTripIsExact` | pkg/githubreconciler/state.go:138-167 | The state printed is read back if and only if the text before it has no state marker, or its first state marker opens a block there that holds the same JSON |
| `CommentState.ExtractReadsBack` | pkg/githubreconciler/state.go:138-167 | What is read back from any printed comment, with a block, an open marker or no marker before the state |
| `CommentState.ExtractedExactly` | pkg/githubreconciler/state.go:142-152 | In any comment there is no state exactly without a state marker, and a malformed one exactly when no end marker follows the first |
| `CommentState.EndBehindOpenHead` | pkg/githubreconciler/state.go:149-152 | Behind an open state marker the first end marker is the printed one, and none straddles or stands in the parts between |
| `CommentState.BareMarkerLosesState` | pkg/githubreconciler/state.go:255-278 | A message that is just the state marker loses the state, for every JSON |
| `CommentState.BlockInMessageWins` | pkg/githubreconciler/state.go:255-278 | With a printed state block in the message the round trip holds if and only if that block holds the same JSON |
| `CommentState.BuiltCommentIsRecognised` | pkg/githubreconciler/state.go:112-114 | Every built comment carries both markers that `Fetch` looks for |
| `CommentState.FetchAfterCommit` | pkg/githubreconciler/state.go:92-221 | For any comment list, `Fetch` after `Commit` returns the state; a comment is created only when none matched, and no other comment changes |
| `CommentState.FetchAfterCommitIsExact` | pkg/githubreconciler/state.go:92-221 | With a decoder that refuses broken text, `Fetch` after `Commit` returns the state if and only if the text before it has no state marker, or a block first that decodes to the same state |
| `CommentState.RecognisedExactly` | pkg/githubreconciler/state.go:82-89 | A comment of one identity is taken for another's if and only if the other is one of its three markers, or the text between them has the other's marker in it |
| `CommentState.CommitLeavesOthersAlone` | pkg/githubreconciler/state.go:170-221 | A commit does not change what is fetched for an identity that does not clash with it and does not share its comment |
| `CommentState.ClashOverwrites` | pkg/githubreconciler/state.go:188-203 | The commit of an identity that clashes overwrites the other's comment |
| `CommentState.State.FindExistingComment` | pkg/githubreconciler/state.go:224-252 | The walk over the pages finds the first comment with the identity marker, or none if there is none |
| `CommentState.State.Fetch` | pkg/githubreconciler/state.go:92-135 | Returns the state in the first matching comment of the whole list, and nothing if there is no comment, no block or no readable JSON |
| `CommentState.State.Commit` | pkg/githubreconciler/state.go:170-221 | Rewrites the first matching comment or appends one, and leaves an unchanged comment alone |
| `Urls.ParseInvertsPrint` | pkg/githubreconciler/parser.go:20-67 | Parsing a printed URL recovers owner, repository, number and kind, whatever characters stand for themselves in a path |
| `Urls.UrlRoundTrip` | modules/github-events/internal/trampoline/server.go:278-337 | Every URL extracted from an event parses back to its repository and number, and no event has both URLs |
| `Urls.PullRequestOfEvent` | modules/github-events/internal/trampoline/server.go:285-311 | Which number of the payload each kind of event is about, read back from the URL, and that no other event has a pull request URL |
| `Urls.IssueOfEvent` | modules/github-events/internal/trampoline/server.go:322-336 | The same for issue URLs |
| `Urls.NamelessHasNoUrl` | modules/github-events/internal/trampoline/server.go:279-283 | Without an owner or a repository there is no URL |
| `Urls.AcceptedExactly` | pkg/githubreconciler/parser.go:33-66 | With four segments, and any slashes around them, a URL is accepted exactly if the fourth reads as a 64-bit number and the third is one of the two words; otherwise the error names the first that fails |
| `Urls.RefusedExactly` | pkg/githubreconciler/parser.go:26-36 | Any other host, and any other number of segments, is refused with its own error |
| `Urls.JoinInvertsSplit` | pkg/githubreconciler/parser.go:33 | Splitting a path loses nothing: joining the parts gives it back |
| `Urls.AcceptedIsPath` | pkg/githubreconciler/parser.go:33-66 | Whatever is accepted has exactly the path of the resource returned, outer slashes aside |

## Left out

- Prometheus metrics, logging, tracing, the storage, GitHub and RPC clients, and the commands' wiring: they decide nothing modelled here.
- Storage errors other than a missing object or a failed precondition: a call that gives up on one behaves like a crash between two operations, which the protocol covers. An operation that takes effect although its caller is told that it failed is not modelled.
- The copy of `Start` when both its source is missing and its target exists: either report fails the call in the same way. For a requeue both reports are modelled.
- The clock: one monotone clock for all actors, read once per metadata rewrite; skew between hosts counts towards H1 and H2.
- A heartbeat tick that races with the cancellation after the final call of its owner.
- `Dispatcher.HandleAsync`: takes the bucket's listing as one atomic snapshot; in the protocol every key is listed on its own, so stale and mixed snapshots are covered there. An enumeration that fails only returns its error.
- `Dispatcher.Round`: returns the keys that would be handed to goroutines; the goroutines are the actors of `Protocol` and the pending starts of `Rounds`.
- `Timestamp.ParseInvertsFormat`: the parser reads UTC texts with whole seconds, the only ones the queue writes; offsets and fractions in foreign metadata are not parsed.
- 64-bit range errors of `strconv` on stored priorities and attempts, and the overflow of the attempts counter; the product in the backoff does wrap.
- Metadata entries other than the six the queue writes, and object names outside the three prefixes.
- A negative enumeration limit, which panics in the source.
- `Refinement.RequeueRefines`: holds for owned keys; requeueing a merely observed in-memory key does not occur, since none is ever orphaned. Priorities range over the eight digits that padding is made for and times over whole seconds.
- `Refinement.RunsSimulate`: runs without crashes or interleaving; those are the subject of `Safety`.
- `Overlap.QueueKeepsBound`: no two keys are queued at the same instant, so that the in-memory queue has no ties; it is about the in-memory queue, since in the bucket `Start` is two operations and the key is briefly both queued and in progress.
- Crashes and expiring leases under overlapping rounds: an orphaned key stops counting as active while its worker may still be busy.
- Liveness that depends on fair scheduling, and termination of the recursion in `Queue` and `RequeueWithOptions` under endless racing deletes.
- `Lease.MarginIsExact`: storage calls are bounded by one delta, and the ticker drops no tick it need not; the refresh interval is a parameter here and five minutes elsewhere.
- `RateLimit.Limiter.Wait`: stops at the channel; the base limiter and the context are not part of this model, nor are the response headers that decide how long to pause.
- `CommentState.FetchAfterCommit`: JSON is an opaque pair with decode(encode(s)) = s and an encoding without angle brackets and outer white space, and for the exact condition a decoder that refuses a line break followed by an opening angle bracket; the block with the link to the logs is a parameter; the identity has no angle brackets or line breaks; errors of the API are left out.
- `CommentState.State.Fetch`: shares the page walk of `findExistingComment`, which the source repeats inline.
- `Check.Builder.Writef`: takes the formatted text; formatting itself, `CheckRunCreate` and `CheckRunUpdate` are left out.
- `Urls.ParseInvertsPrint`: `url.Parse` is restricted to `https` URLs with a host of unreserved characters (section 2.3 of RFC 3986) and without user, port, escapes, query or fragment; owner and repository are free of the slash, the escape character, the delimiters of query and fragment, and control characters.
- `SecondaryRateLimitWaiter`, blob rotation, publishing, bot dispatch, webhook signatures, schemas and infrastructure code.
