# hermesmq: a verified model

This project models the core of hermesmq, a replicated message queue: the deterministic queue that every replica applies
its log to, the log store under the Raft layer, the state machine's snapshots and the start-up repair, and the
bookkeeping a client connection does (subscription tracking, rate limiting and the batching of acknowledgements).
`dafny verify dfyconfig.toml` checks it.

How it is laid out, from the bottom up:

- `collections`, `selection`, `model`: sets and counters, the poll's choice of messages, the data.
- `groups`, `topics`, `topic_facts`: one consumer group and one topic as functions on values, and what each operation keeps.
- `queue`, `invariant`, `validator`, `validated`, `limits`: requests as short scripts of topic operations, the inductive
  invariant, the snapshot validator, which of the states it accepts stay accepted, the compiled-in limits.
- `progress`, `runs`, `delivery`, `causes`, `fairness`, `starvation`, `waiting`, `consumers`, `idempotence`, `requests`: what
  holds over whole runs.
- `polls`, `sweeps`, `retention`, `contents`, `admission`: exactly what a poll answers, which groups and messages stay, that
  what was produced is what is delivered, and which requests are refused, with the source's numbers written out.
- `batching`, `conflicts`: batches of produces and acknowledgements against one at a time.
- `group_object`, `topic_object`, `queue_object`: the same operations as objects changed in place by the source's loops,
  each method proved equal to its function.
- `log_store`, `log_runs`, `log_crash`, `log_reads`, `log_state`, `log_object`: the log store as a state machine over the
  points where writer and flusher interleave, its theorems over runs, what a crash leaves, what reads in several steps
  return, and its methods as uninterrupted stretches of that machine.
- `recovery`, `restart`, `nodes`: start-up repair, snapshots, replay, the two halves of the system together, and a node over
  any number of snapshots and restarts.
- `tracking`, `tracking_runs`, `subscriptions`, `rate_limit`: the client side.

Conventions. Counters are unbounded numbers with the source's saturating additions written out. Theorems about runs ask
that the counters stay at or below 2^62, the ceiling the source's own validator enforces (`BelowCeiling` over requests,
`Fits` over operations). `Lives` says that a group's record is not removed during a run: the topic is not deleted and no
sweep finds the group idle. A start that is to replay an entry the log does not have fails, as the source says of Raft
(crates/hermesmq-core/src/engine/mod.rs:52-57). Clocks, the binary codec and the outcome of a database write are parameters.

Where the repository's documentation and its code differ, the model follows the code. Its README says the idle-group
sweep also runs on produce; the code sweeps on polls and timestamped commits only. It says a request for a group
past the group limit is rejected; the code answers such a poll with no messages and lets such a commit do nothing. A poll
with `max` zero still advances the group's poll count, so no number of polls alone bounds how long a message waits
(`Waiting.PollCountIsNoBound`). The exact bound is by the places the polls reserve: a message behind k deliverable ones is
sure to be in one of the answers if and only if they reserve more than k (`Waiting.WaitBoundIff`), whatever else arrives
meanwhile (`Fairness.NobodyStarves`).

Six properties are false without a condition. Each is stated with its exact condition and has an input that shows it
fail:

- Reading the log in two steps, the database and then the pending map, returns what one instant would if and only if no
  index in range is disturbed in between (`LogReads.ReadIsExactIff`). A flush can make it miss an entry
  (`LogReads.ReadCanMissAnEntry`) and a truncation can make it mix two logs (`LogReads.ReadCanMixLogs`).
- The last log id, put together from four reads, is the log's last if and only if that entry is not flushed unseen
  between the first two (`LogState.LogStateIsLastIff`, `LogState.LogStateCanLag`).
- The log a crash leaves is contiguous if and only if no index lost to a failed write lies between two written ones
  (`LogCrash.CrashLeavesNoHoleIff`, `LogCrash.FailedWriteLeavesHole`).
- A node starts from what a crash left if and only if no lost index is among those to be replayed; the repair does not
  notice (`Restart.CrashThenStart`, `Restart.HoledDiskCannotStart`).
- Writing a batch of acknowledgements by groups means what the jobs one by one mean if and only if, of every lease in
  flight that it both acknowledges and gives back, the acknowledgement comes first (`Conflicts.RegroupingPreservesIff`,
  `Conflicts.ConflictChangesMeaning`).
- A state the snapshot validator accepts stays accepted over every run if and only if no group has an offset both
  acknowledged and leased (`Validated.ValidStaysValidIff`, `Validated.ValidatorNotInductive`), which is why the invariant
  is stronger than the validator.

## Model

| member | source | states |
|---|---|---|
| `Selection.Select` | crates/hermesmq-core/src/queue.rs:651-690 | The one-pass selection (bounded heap of the best, buffer of the earliest, early break) returns the very sequence the full-sort reference returns, for every candidate list in offset order, every `max` and every poll count |
| `Selection.Scan` | crates/hermesmq-core/src/queue.rs:656-673 | After one pass the buffer is the first `max` candidates and the heap is the set of the best `slots` of all candidates, also when the loop stops early |
| `Selection.PushBounded` | crates/hermesmq-core/src/queue.rs:668-671 | Pushing and popping the worst keeps the heap the best `slots` of what has been seen |
| `Selection.DrainHeap` | crates/hermesmq-core/src/queue.rs:676-681 | Emptying the heap in whatever order lists its items once each |
| `Selection.TopUp` | crates/hermesmq-core/src/queue.rs:682-689 | The buffer fills the remaining places in offset order without repeats, stopping at `max` |
| `Selection.SelectionFrom` | crates/hermesmq-core/src/queue.rs:651-690 | Any listing of the best items, in any order, topped up from the candidates and sorted, is the reference selection: the heap's iteration order cannot be seen |
| `Selection.SelectionFacts` | crates/hermesmq-core/src/queue.rs:1727-1770 | The reference returns exactly min(max, candidates) items, all of them candidates, none repeated, by priority descending and offset ascending |
| `Selection.SelectedIff` | crates/hermesmq-core/src/queue.rs:651-690 | Exactly which candidates are taken, with the numbers written out: those that fewer others go before than three quarters of `max` (one less on every fourth poll), and of the others the earliest for the places that are left |
| `Selection.ReservedPlacesGoToEarliest` | crates/hermesmq-core/src/queue.rs:651-654 | A candidate is passed over only for as many chosen candidates with lower offsets as the poll has reserved places: a quarter of `max`, and one more on every fourth poll |
| `Selection.CrowdPassesOver` | crates/hermesmq-core/src/queue.rs:651-690 | A poll passes over a candidate that enough others go before for its places by priority, if enough with lower offsets go after it for its reserved places, and takes no more of those than it has reserved places |
| `Groups.SlideFacts` | crates/hermesmq-core/src/queue.rs:65-67 | Sliding the watermark over acknowledged offsets leaves the set of done offsets the same and nothing acknowledged at or below the watermark |
| `Groups.CanonicalUnique` | crates/hermesmq-core/src/queue.rs:60-68 | Two records in that form with the same done offsets have the same watermark and the same sparse set, so the order of acknowledgements cannot be seen |
| `Groups.AckFacts` | crates/hermesmq-core/src/queue.rs:712-721 | An acknowledgement of a lease in flight makes exactly its offset done, drops exactly its lease, and keeps the group's invariant |
| `Groups.AdvanceFacts` | crates/hermesmq-core/src/queue.rs:84-104 | Raising the watermark makes exactly the offsets below the target done and keeps exactly the leases above it |
| `Groups.ExpireFacts` | crates/hermesmq-core/src/queue.rs:70-82 | Expiry returns exactly the leases whose deadline has come, in both maps |
| `GroupObject.Group.SlideOver` | crates/hermesmq-core/src/queue.rs:65-67 | The in-place loop computes the slide, with the counter saturating |
| `GroupObject.Group.MarkOffset` | crates/hermesmq-core/src/queue.rs:60-68 | In-place `mark_acked`, including an offset already below the watermark |
| `GroupObject.Group.ReleaseAll` | crates/hermesmq-core/src/queue.rs:77-81 | Removing leases one at a time removes them from both maps as a set would |
| `GroupObject.Group.ReleaseDue` | crates/hermesmq-core/src/queue.rs:70-82 | In-place `expire` |
| `GroupObject.Group.Advance` | crates/hermesmq-core/src/queue.rs:84-104 | In-place `advance_watermark`: raise, drop what is passed, slide |
| `GroupObject.Group.Settle` | crates/hermesmq-core/src/queue.rs:715-718 | The group's part of an acknowledgement; an unknown lease changes nothing |
| `GroupObject.Group.Issue` | crates/hermesmq-core/src/queue.rs:692-709 | One lease per chosen message in order, with consecutive ids and one deadline, in both maps, and the answer that names them |
| `TopicFacts.PruneFacts` | crates/hermesmq-core/src/queue.rs:789-799 | Pruning stops at the first key in range and still removes exactly the keys below the boundary, because keys are in offset order |
| `TopicFacts.EvictFacts` | crates/hermesmq-core/src/queue.rs:371-375 | Eviction keeps exactly the newest keys up to the capacity |
| `TopicFacts.PurgeFacts` | crates/hermesmq-core/src/queue.rs:741-781 | What retention removes is a prefix; every group is raised over it; after a removal no surviving dedup key lies below the first retained offset; the topic's invariant is kept |
| `TopicFacts.PurgeWithinCap` | crates/hermesmq-core/src/queue.rs:753-767 | After retention the topic is within its message cap |
| `TopicFacts.ProduceKeeps` | crates/hermesmq-core/src/queue.rs:344-379 | A produce, duplicate or not, keeps the topic's invariant and removes no group |
| `TopicFacts.PollKeeps` | crates/hermesmq-core/src/queue.rs:615-710 | A poll keeps the topic's invariant and uses one lease id per message it hands out |
| `TopicFacts.CommitKeeps` | crates/hermesmq-core/src/queue.rs:870-895 | A commit, also one past the end, keeps the topic's invariant |
| `TopicFacts.SweepFacts` | crates/hermesmq-core/src/queue.rs:819-835 | The idle sweep with its reclaim drops only messages every remaining group has consumed and keeps the invariant |
| `TopicFacts.DropConsumedFacts` | crates/hermesmq-core/src/queue.rs:807-814 | Reclaiming drops exactly the messages below the lowest watermark |
| `TopicObject.Topic.GatherPurge` | crates/hermesmq-core/src/queue.rs:741-767 | The two loops, by age and then by count, gather exactly the oldest messages retention removes |
| `TopicObject.Topic.RaiseAll` | crates/hermesmq-core/src/queue.rs:775-779 | The loop over the groups raises exactly those behind the boundary |
| `TopicObject.Topic.Prune` | crates/hermesmq-core/src/queue.rs:789-799 | In-place `prune_dedup` |
| `TopicObject.Topic.Purge` | crates/hermesmq-core/src/queue.rs:741-781 | In-place `purge_retained`; nothing to remove means nothing touched |
| `TopicObject.Topic.ProduceOne` | crates/hermesmq-core/src/queue.rs:344-379 | In-place `produce_one`: a duplicate answers its old offset after retention; otherwise append, remember, evict, retain |
| `TopicObject.Topic.ReclaimDone` | crates/hermesmq-core/src/queue.rs:807-848 | In-place `reclaim` with the collection of drained groups |
| `TopicObject.Topic.SweepIdle` | crates/hermesmq-core/src/queue.rs:819-835 | In-place sweep: stamp, keep the active or leased, and say whether a group went |
| `TopicObject.Topic.Open` | crates/hermesmq-core/src/queue.rs:658-661 | The loop's filter: exactly the messages from the watermark on that are neither acknowledged nor leased, in offset order |
| `TopicObject.Topic.PollGroup` | crates/hermesmq-core/src/queue.rs:615-710 | In-place `poll`: sweep, admit, expire, count, select, lease and answer, with the early returns at the cap and at `max` zero |
| `TopicObject.Topic.AckLeaseOf` | crates/hermesmq-core/src/queue.rs:712-721 | In-place `ack` on a topic; an unknown group changes nothing |
| `TopicObject.Topic.NackLeaseOf` | crates/hermesmq-core/src/queue.rs:723-731 | In-place `nack` on a topic |
| `TopicObject.Topic.Commit` | crates/hermesmq-core/src/queue.rs:870-895 | In-place `commit`, clamped to the end of the topic, with and without a clock |
| `QueueObject.LiveQueue.CheckProduce` | crates/hermesmq-core/src/queue.rs:315-333 | The one-pass check over a batch accepts exactly if every name is short enough and existing plus distinct new topics fit the limit |
| `QueueObject.LiveQueue.ProduceBatch` | crates/hermesmq-core/src/queue.rs:164-170 | Items are stored in order and their offsets answered in order |
| `QueueObject.LiveQueue.Handle` | crates/hermesmq-core/src/queue.rs:127-311 | In-place `apply`: for each of the fourteen requests the whole new state and the answer |
| `QueueObject.LiveQueue.Normalize` | crates/hermesmq-core/src/queue.rs:435-443 | In-place `normalize`: exactly the watermarks past the end of their topic are lowered to it |
| `Queue.ScriptIsApply` | crates/hermesmq-core/src/queue.rs:127-311 | Every request is a fixed short sequence of operations on single topics, which is what carries facts about operations to runs |
| `Limits.RunStaysCapped` | crates/hermesmq-core/src/queue.rs:315-342 | No run takes the queue past its topic limit or a topic past its group limit |
| `Invariant.StepKeeps` | crates/hermesmq-core/src/queue.rs:127-311 | Every operation keeps the strengthened invariant: retained offsets an interval, canonical watermarks, leases an exact injective projection disjoint from acknowledgements, dedup keys in offset order |
| `Invariant.ApplyKeeps` | crates/hermesmq-core/src/queue.rs:127-311 | Every request keeps it |
| `Invariant.RunKeeps` | crates/hermesmq-core/src/queue.rs:127-311 | Every run below the counter ceiling keeps it |
| `Invariant.InvariantValidates` | crates/hermesmq-core/src/queue.rs:451-561 | A state with the invariant is one `validate` accepts if and only if its counters are below the ceiling |
| `Invariant.EveryRunValidates` | crates/hermesmq-core/src/queue.rs:451-561 | From the empty queue, every state of every run below the ceiling is accepted by `validate` |
| `Validated.SoundIff` | crates/hermesmq-core/src/queue.rs:451-561 | `validate` accepts a state in which no group has an offset both acknowledged and leased exactly if its counters are below the ceiling and it has the part of the invariant that does not say which messages are retained nor in which order dedup keys come |
| `Validated.ValidStaysValid` | crates/hermesmq-core/src/queue.rs:451-561 | Such a state, also one no queue ever produced, stays accepted and such over every run below the ceiling |
| `Validated.CrossedBreaks` | crates/hermesmq-core/src/queue.rs:870-895 | In every other accepted state a commit to the offset in question leads, below the ceiling, to a state `validate` refuses |
| `Validated.ValidStaysValidIff` | crates/hermesmq-core/src/queue.rs:451-561 | An accepted state stays accepted over every run of requests below the ceiling if and only if no group has an offset both acknowledged and leased |
| `Validated.OperationsKeepValidIff` | crates/hermesmq-core/src/queue.rs:451-561 | The same over every sequence of operations, whatever the names of topics and groups |
| `Validated.ValidatorNotInductive` | crates/hermesmq-core/src/queue.rs:451-561 | A queue that `validate` accepts and the commit after which it refuses it |
| `Validator.GroupValidMeans` | crates/hermesmq-core/src/queue.rs:495-557 | A group passes `validate` if and only if its counters and offsets are in range, its sparse set starts above its watermark and its two lease maps are one injective assignment with the deadlines; the counting test says no less |
| `Validator.TopicValidMeans` | crates/hermesmq-core/src/queue.rs:456-494 | A topic passes if and only if its messages are stored under their own offsets below the next, its dedup queue lists each key of its table exactly once within the capacity, and its groups pass |
| `Invariant.Conservation` | crates/hermesmq-core/src/queue.rs:615-710 | Next offset minus watermark is the number acknowledged plus in flight plus undelivered, and every lease names a retained message |
| `Requests.EveryRunConserves` | crates/hermesmq-core/src/queue.rs:127-311 | The same in every state every run reaches, with the retained offsets exactly the interval from base to next |
| `Runs.LeaseIdsNeverRepeat` | crates/hermesmq-core/src/queue.rs:693-695 | The lease ids handed out over a whole run strictly increase across all topics and groups |
| `Progress.GroupMoves` | crates/hermesmq-core/src/queue.rs:60-104 | How any operation moves any group that lives through it: done only grows and only for cause, leases last until done or returned, nothing becomes deliverable except by a returned lease |
| `Delivery.HoldsOverRuns` | crates/hermesmq-core/src/queue.rs:615-731 | While no operation may free the lease, its group keeps holding the offset and is not handed it again |
| `Delivery.LeaseIsExclusive` | crates/hermesmq-core/src/queue.rs:615-731 | A delivered offset is in no later answer to its group until its lease is given back, a poll or timestamped commit on the topic carries a clock at its deadline, or the topic is deleted; the deadline is the poll's clock plus the visibility asked for, at most twelve hours |
| `Polls.RedeliveredFromDeadline` | crates/hermesmq-core/src/queue.rs:70-82 | And from the deadline on it is open again: after any run in which nothing frees or finishes it, a poll at or after the deadline that asks for enough is answered the message |
| `Polls.AnsweredExactly` | crates/hermesmq-core/src/queue.rs:615-710 | Exactly which messages a poll of a known group answers, in terms of the topic it finds: of the retained ones the group is not done with and has no running lease on, those taken by priority and those taken for being early |
| `Polls.AnswerIs` | crates/hermesmq-core/src/queue.rs:692-709 | As many as asked for and free, by priority and then offset, each with the stored priority, content type, payload and time, under lease ids that continue the queue's |
| `Sweeps.NewGroupAnswers` | crates/hermesmq-core/src/queue.rs:615-710 | Exactly which messages the first poll of a group answers |
| `Sweeps.GroupsAfterPoll` | crates/hermesmq-core/src/queue.rs:615-650 | Exactly which groups there are after a poll, with their activity and poll count; a group past the thousand is turned away with an empty answer |
| `Sweeps.GroupsAfterCommit` | crates/hermesmq-core/src/queue.rs:870-895 | The same after a commit, with and without a clock |
| `Sweeps.SweepIs` | crates/hermesmq-core/src/queue.rs:819-835 | Exactly what a sweep keeps: groups active within seven days or holding a running lease, and, when one goes, the messages the others are not all past |
| `Sweeps.ReclaimIs` | crates/hermesmq-core/src/queue.rs:807-848 | Exactly what reclaiming keeps of messages and, past 1024 groups, of groups, for every topic |
| `Sweeps.FinishedIsReclaimed` | crates/hermesmq-core/src/queue.rs:221-283 | After any acknowledgement, auto-acknowledging poll or commit, every message left in the topic is one that some group is not past |
| `Contents.MessagesStay` | crates/hermesmq-core/src/queue.rs:344-379 | No operation changes a stored message |
| `Contents.ProduceAnswers` | crates/hermesmq-core/src/queue.rs:344-379 | Exactly what an accepted produce answers: the remembered offset of its key, storing nothing, or the topic's next offset, where its message then is |
| `Contents.DeliveredAsProduced` | crates/hermesmq-core/src/queue.rs:355-366 | What was produced is what is delivered: after a produce answered with a new offset, every later answer with that offset, to any group, has the item's priority, content type, payload and time, until the topic is deleted |
| `Retention.RetainedIff` | crates/hermesmq-core/src/queue.rs:741-781 | Exactly which messages a produce leaves, a resent one too: those within the number kept, counted from the newest, and not in the leading run past the age allowed; a million without any setting |
| `Retention.LeftIsYoung` | crates/hermesmq-core/src/queue.rs:745-752 | So with clocks that do not go back nothing that is left is past its age |
| `Retention.LeftCanBeOld` | crates/hermesmq-core/src/queue.rs:745-767 | And with clocks that do, something can be: the age stops at a young message which the count then removes |
| `Admission.RefusedIff` | crates/hermesmq-core/src/queue.rs:315-342 | Exactly which requests are refused, by the lengths of names and the number of topics, and that a refused one changes nothing |
| `Admission.AnsweredAs` | crates/hermesmq-core/src/queue.rs:127-311 | The kind of answer each request gets when it is not refused, and one offset per item of a batch |
| `Admission.RequestSettings` | crates/hermesmq-core/src/queue.rs:284-311 | What each request makes of a topic's existence, rate limit and retention |
| `Admission.SettingsAreLast` | crates/hermesmq-core/src/queue.rs:284-311 | Over every run a topic exists exactly if it was made since it was last deleted, with the last limits set since then |
| `Admission.LimitInForce` | crates/hermesmq-core/src/queue.rs:387-395 | A rate limit that was set is the one in force until it is set again or the topic is deleted |
| `Delivery.NoSilentLoss` | crates/hermesmq-core/src/queue.rs:60-104 | While a group's record lives, an offset is done after a run if and only if it was done before or an operation of the run finished it |
| `Delivery.DoneIsForever` | crates/hermesmq-core/src/queue.rs:615-710 | A done offset is never delivered to the group again while its record lives |
| `Delivery.OnlyDoneMessagesLeave` | crates/hermesmq-core/src/queue.rs:801-814 | A message leaves a topic only if it is done for every group that is left |
| `Causes.RequestCause` | crates/hermesmq-core/src/queue.rs:127-311 | One request: an offset is done after it if and only if it was done before, or the request acknowledges the lease the offset is in flight under, is an auto-acknowledging poll that answers it, commits above it within the topic, or is a produce whose retention moves the base past it |
| `Causes.DoneHasCause` | crates/hermesmq-core/src/queue.rs:712-721 | Over every run in which the group's record lives: done at the end if and only if done at the start or finished, in that exact sense, by some request in the state that request found |
| `Requests.DoneIsNeverAnswered` | crates/hermesmq-core/src/queue.rs:615-710 | Once done, an offset is in no answer to the group while its record lives |
| `Fairness.NobodyStarves` | crates/hermesmq-core/src/queue.rs:643-690 | A deliverable message is delivered before the reserved places of its group's polls outnumber the deliverable messages below it and those that come back below it, whatever of higher priority arrives and whatever each poll asks for, unless it is finished or its group removed first |
| `Fairness.EveryFourthReserves` | crates/hermesmq-core/src/queue.rs:651-654 | Of polls that ask for something at least every fourth reserves a place, over every run and from every poll count |
| `Fairness.FourPollsEach` | crates/hermesmq-core/src/queue.rs:643-690 | If every poll of the group asks for something, 4(k+1) polls are enough for a message with k below it, and four more for each that comes back below it |
| `Requests.SomePollAnswers` | crates/hermesmq-core/src/queue.rs:643-690 | The bound by reserved places over requests: one of the answers contains the message |
| `Requests.PollsBelowCeiling` | crates/hermesmq-core/src/queue.rs:643-650 | The counter ceiling bounds the polls of a group that lives through a run, so the run's length needs no bound of its own |
| `Requests.FourPollsAnswer` | crates/hermesmq-core/src/queue.rs:643-690 | The bound of 4(k+1) polls over requests |
| `Starvation.CrowdStarves` | crates/hermesmq-core/src/queue.rs:643-690 | For any sequence of polls: with enough deliverable messages of higher priority for all they ask for, and enough earlier ones of lower priority for all places they reserve, a message is in no answer |
| `Starvation.UnansweredIsBehind` | crates/hermesmq-core/src/queue.rs:643-690 | A message that is in no answer had at least as many deliverable ones below it as the polls reserved places |
| `Waiting.MessageCanWait` | crates/hermesmq-core/src/queue.rs:643-690 | For every number k of messages below, every poll count and every sequence of polls that reserve at most k places, a run from the empty queue leads to a state in which the polls never answer the message |
| `Waiting.WaitBoundIff` | crates/hermesmq-core/src/queue.rs:643-690 | The bound is exact: polls reserve more than k places if and only if, in every queue a run from empty reaches, they answer every message that waits behind k |
| `Waiting.PollCountIsNoBound` | crates/hermesmq-core/src/queue.rs:643-650 | As many polls as the counters allow can pass over a message with nothing deliverable below it |
| `Consumers.GroupsAreIndependent` | crates/hermesmq-core/src/queue.rs:615-731 | Consumption by other groups leaves a group's next poll the same messages in the same order |
| `Requests.NextPollIsSame` | crates/hermesmq-core/src/queue.rs:171-283 | The same over runs of requests by other groups |
| `Consumers.PollAnswersIff` | crates/hermesmq-core/src/queue.rs:615-673 | A poll for at least one message answers one if and only if the group is admitted and some retained message is open to it |
| `Consumers.FastCheckKnownGroup` | crates/hermesmq-core/src/queue.rs:397-410 | The read-only check agrees with the poll for every group that is not idle-expired |
| `Consumers.FastCheckNewGroup` | crates/hermesmq-core/src/queue.rs:397-410 | And for an unknown group below the cap when the sweep expires nobody |
| `Idempotence.ProduceAges` | crates/hermesmq-core/src/queue.rs:344-379 | One produce: a remembered key survives if and only if fewer than the capacity of newer keys follow it and retention does not pass its offset; otherwise it is gone |
| `Idempotence.FreshIsRetained` | crates/hermesmq-core/src/queue.rs:741-781 | The retention a fresh produce runs never reaches the message it has just stored |
| `Idempotence.FreshIsRemembered` | crates/hermesmq-core/src/queue.rs:355-376 | A fresh keyed produce answers the next offset, retains its message and remembers the key under that offset |
| `Idempotence.ResendAnswersOriginal` | crates/hermesmq-core/src/queue.rs:347-354 | A remembered key answers its original offset and stores nothing |
| `Idempotence.ProduceKeepsRetention` | crates/hermesmq-core/src/queue.rs:741-799 | After every produce the topic is within its cap, what went is a prefix, and after a purge no key lies below the first retained offset |
| `Idempotence.KeyOutlivesRun` | crates/hermesmq-core/src/queue.rs:367-376 | A key outlives every run with fewer than the window's fresh keys in which retention does not pass it |
| `Requests.ResendAfterRun` | crates/hermesmq-core/src/queue.rs:347-354 | After such a run of requests, a produce of the same item is answered with the original offset, if it passes the check, and stores nothing |
| `Batching.AllowedIsAllAccepted` | crates/hermesmq-core/src/queue.rs:315-333 | A batch passes the check if and only if producing its items one at a time would all be accepted |
| `Batching.BatchedProduceIsEach` | crates/hermesmq-core/src/queue.rs:164-170 | `ProduceMany` gives the offsets and the state of its items one at a time, and a refused batch changes nothing |
| `Batching.SettledUnique` | crates/hermesmq-core/src/queue.rs:712-731 | A group's record after a set of acknowledgements and returns is determined by the set alone |
| `Batching.JobsOneByOne` | crates/hermesmq-core/src/queue.rs:221-258 | Jobs without conflict, one at a time in any order, give one order-free state, reclaimed messages included |
| `Batching.GroupIsJobs` | crates/hermesmq-core/src/queue.rs:230-250 | `AckMany` and `NackMany` are their leases one at a time |
| `Batching.GroupJobs` | crates/hermesmq-core/src/client.rs:594-601 | The batcher's loop partitions the jobs by topic, group and kind |
| `Batching.PartitionFacts` | crates/hermesmq-core/src/client.rs:594-601 | The partition holds exactly the jobs and no empty group |
| `Batching.RegroupingPreserves` | crates/hermesmq-core/src/client.rs:594-631 | Writing the groups, in key order or any other, gives the state of applying the jobs one by one, if no lease is both acknowledged and given back |
| `Conflicts.RegroupingPreservesIff` | crates/hermesmq-core/src/client.rs:594-631 | For every batch and every state, writing the groups in key order gives the state of applying the jobs one by one if and only if, of every lease in flight that the batch both acknowledges and gives back, the acknowledgement comes first |
| `Conflicts.BatchFinishes` | crates/hermesmq-core/src/queue.rs:712-731 | Whatever else is in a batch, the offset of a lease in flight is done after it if and only if the lease is acknowledged in it before it is given back |
| `Conflicts.ConflictChangesMeaning` | crates/hermesmq-core/src/client.rs:594-631 | From the empty queue, a produce, a poll and a batch that gives the lease back and then acknowledges it: not done job by job, done when written by groups |
| `Conflicts.BatchMeans` | crates/hermesmq-core/src/queue.rs:712-731 | What any batch of jobs does, conflicts included: the first job on a lease decides it and later ones find nothing |
| `LogStore.StepKeeps` | crates/hermesmq-core/src/engine/log_store.rs:110-164 | Every step of writer and flusher keeps the store's invariant, under every interleaving |
| `LogRuns.OverlayIsWanted` | crates/hermesmq-core/src/engine/log_store.rs:110-164 | For every interleaving, outside the two halves of a trim, database overlaid with pending map is exactly the log the writer's calls ask for |
| `LogRuns.LogIsWanted` | crates/hermesmq-core/src/engine/log_store.rs:316-361 | That log depends on the writer's calls alone, not on what the flusher did |
| `LogRuns.LogHoldsAsked` | crates/hermesmq-core/src/engine/log_store.rs:316-361 | Index by index, for every interleaving: the last entry appended for it, unless a truncation from it or below or a purge up to it or beyond was carried out since |
| `LogRuns.MarkerIsAsked` | crates/hermesmq-core/src/engine/log_store.rs:165-178 | The recorded purge marker is the highest purge carried out |
| `LogRuns.CallbackMeansDurable` | crates/hermesmq-core/src/engine/log_store.rs:136-152 | When a callback is told Ok its entries are in the database and stay there until a truncation or purge drops them |
| `LogCrash.CrashLeaves` | crates/hermesmq-core/src/engine/log_store.rs:110-164 | At any instant of any run, failed writes included, the database alone is exactly the log cut at the first index still to be written, without the indices whose write failed and which no trim has dropped since |
| `LogCrash.CrashLeavesPrefix` | crates/hermesmq-core/src/engine/log_store.rs:110-164 | If no write has failed, the database alone is exactly the log cut at the first unwritten index, at any instant |
| `LogCrash.CrashLeavesNoHoleIff` | crates/hermesmq-core/src/engine/log_store.rs:110-164 | With consecutive appends the log a crash leaves, at any instant of any run, is contiguous if and only if no index lost to a failed write lies between two written ones |
| `LogCrash.StoppingLeavesNoHole` | crates/hermesmq-core/src/engine/log_store.rs:153-158 | So it is contiguous as long as, after a failed write, no batch is written until a trim has dropped the indices that failed |
| `LogCrash.FailedWriteLeavesHole` | crates/hermesmq-core/src/engine/log_store.rs:153-158 | A failed write followed by a successful one: a run that ends with 0 and 2 in the database and 1 in memory only |
| `LogReads.RunTouches` | crates/hermesmq-core/src/engine/log_store.rs:110-164 | Both maps at the end of any run, index by index, from what its writes, clean-ups, appends and trims last did to them |
| `LogReads.TwoHalfRead` | crates/hermesmq-core/src/engine/log_store.rs:180-220 | What a read returns at each index, whatever run falls between its halves: at an index the run leaves out of the pending map and with another database entry than the first half found, what that half found; elsewhere what one instant would return |
| `LogReads.ReadIsExactIff` | crates/hermesmq-core/src/engine/log_store.rs:180-220 | For every run in between, trims included, the read is what the second instant would return if and only if no index in range is so disturbed; outside a trim that is the log |
| `LogReads.FlushOnlyRead` | crates/hermesmq-core/src/engine/log_store.rs:180-220 | With appends and flushes only in between, the disturbed indices are those flushed in between that the first half did not find |
| `LogReads.CollectedIsReachable` | crates/hermesmq-core/src/engine/log_store.rs:110-134 | A run from an empty database reaches the store the next example starts from |
| `LogReads.ReadCanMissAnEntry` | crates/hermesmq-core/src/engine/log_store.rs:180-220 | A run in which an entry in the log before, during and after the read is missing from it |
| `LogReads.ReadCanMixLogs` | crates/hermesmq-core/src/engine/log_store.rs:341-361 | A run with a truncation and an append in between after which the read returns a log that was never there |
| `LogObject.Store.AppendEntries` | crates/hermesmq-core/src/engine/log_store.rs:316-339 | In-place append: the loop over the entries and the queued job are the state machine's append |
| `LogObject.Store.Collect` | crates/hermesmq-core/src/engine/log_store.rs:110-134 | The collecting loop takes jobs up to a barrier, the entry or byte limit, or the end of the queue |
| `LogObject.TakenIs` | crates/hermesmq-core/src/engine/log_store.rs:110-134 | Exactly how many queued jobs a round takes: up to the first barrier or the first job that makes 512 entries or eight mebibytes, and all if there is none |
| `LogObject.Store.FlushRound` | crates/hermesmq-core/src/engine/log_store.rs:110-164 | A round of the flusher is a run of the state machine's events, with the write succeeding or failing |
| `LogObject.Store.FinishTrim` | crates/hermesmq-core/src/engine/log_store.rs:341-361 | What truncate and purge do once their barrier has come back, with a purge skipped at or below the marker |
| `Recovery.Disk.RecoverConsistency` | crates/hermesmq-core/src/engine/mod.rs:70-99 | In-place repair step by step, with its failures on records that do not decode and what it has done by then |
| `Recovery.RepairIsSound` | crates/hermesmq-core/src/engine/mod.rs:70-99 | After the repair of a contiguous log every index from the snapshot to the reported commit pointer is present and unchanged |
| `Recovery.RepairIsIdempotent` | crates/hermesmq-core/src/engine/mod.rs:70-99 | Repairing twice is repairing once |
| `Recovery.RepairTouchesOnlyDamage` | crates/hermesmq-core/src/engine/mod.rs:57-99 | Exactly what the repair does: the snapshot stays; the log stays if it is empty or has an entry at or below the one right after the snapshot, and otherwise goes with the purge marker; the commit pointer stays if the snapshot or what is left of the log reaches it |
| `Recovery.LastOfOverlay` | crates/hermesmq-core/src/engine/log_store.rs:302-309 | The last index reported from the two halves is the overlay's last |
| `LogState.LogStateIsLastIff` | crates/hermesmq-core/src/engine/log_store.rs:225-262 | Read in four steps with any steps of the flusher in between, the reported id is that of an entry of the log or the purge marker, and it is the last entry's if and only if that entry was not flushed between the first two reads unseen by the first |
| `LogState.LogStateCanLag` | crates/hermesmq-core/src/engine/log_store.rs:225-262 | A flush after which a log with an entry is reported as empty |
| `LogState.CommitIsServedIff` | crates/hermesmq-core/src/engine/log_store.rs:288-314 | The commit pointer, checked in two steps, is handed out if and only if the log has an entry at or above it that was not flushed unseen between them, and withheld otherwise |
| `Restart.StateMachineStore.ApplyEntries` | crates/hermesmq-core/src/engine/state_machine.rs:209-230 | In-place apply: state and answers are the fold of the entries, whatever their payload |
| `Restart.StateMachineStore.Open` | crates/hermesmq-core/src/engine/state_machine.rs:122-137 | Opening fails exactly when the record cannot be read or decodes to a state the queue could not have produced |
| `Restart.StateMachineStore.CaptureSnapshot` | crates/hermesmq-core/src/engine/state_machine.rs:284-298 | Under the lock: the record covers exactly what is applied, and the live state is untouched |
| `Restart.LoadTaken` | crates/hermesmq-core/src/engine/state_machine.rs:299-301 | A stored record, whenever it was captured and by whom, opens as the state it was captured from, and replay begins right after what it covers |
| `Restart.StateMachineStore.InstallSnapshot` | crates/hermesmq-core/src/engine/state_machine.rs:245-259 | A refused snapshot changes neither disk nor live state; an accepted one replaces both |
| `Restart.NormalizedIsSame` | crates/hermesmq-core/src/queue.rs:435-443 | `normalize` is the identity on every state with the invariant |
| `Restart.LoweredIsClamped` | crates/hermesmq-core/src/queue.rs:427-443 | Lowering a watermark leaves the group where its commit would have left it, had it been cut off at the end of the topic |
| `Restart.DecodedIff` | crates/hermesmq-core/src/engine/state_machine.rs:52-70 | Exactly what snapshot bytes decode to: by their two first bytes the current or the older format, with watermarks lowered, and nothing unless the validator accepts it |
| `Restart.AtMeans` | crates/hermesmq-core/src/engine/state_machine.rs:209-230 | What a node has after applying a history: the queue its requests make, the last membership in it, the id of its last entry |
| `Restart.AnswersMean` | crates/hermesmq-core/src/engine/state_machine.rs:209-230 | What a node answers to each entry: to a request what the queue answers in the state the requests before it make, and nothing to the others |
| `Restart.SnapshotRoundTrip` | crates/hermesmq-core/src/engine/state_machine.rs:39-70 | Encoding and decoding gives the state back if and only if its counters are below the ceiling, and refuses it otherwise |
| `Restart.RestartEquivalence` | crates/hermesmq-core/src/engine/state_machine.rs:39-70 | For every history and snapshot point, decoding and replaying the rest gives queue, last applied id and membership of the run that never stopped |
| `Recovery.ContiguousIsReplayable` | crates/hermesmq-core/src/engine/mod.rs:70-99 | After the repair of a contiguous log everything to be replayed is there |
| `Recovery.ReplayEndIs` | crates/hermesmq-core/src/engine/log_store.rs:288-314 | Replay goes up to the commit pointer if the log reaches back to the snapshot and forward to the pointer, and does not happen otherwise |
| `Restart.StartRestores` | crates/hermesmq-core/src/engine/mod.rs:70-99 | Repair, load and replay of any surviving log, snapshot and commit pointer: with every entry to be replayed there, the state of a node that applied the same entries and never stopped, whatever is left below the snapshot or above the pointer; otherwise the start fails |
| `Restart.CommittedIsReplayed` | crates/hermesmq-core/src/engine/log_store.rs:288-314 | If the entry at the commit pointer is on disk and the log reaches back to the snapshot, all of what was committed is replayed |
| `Restart.HealthyStart` | crates/hermesmq-core/src/engine/mod.rs:68-99 | A snapshot of n entries and a log that starts at or below the next one and has the rest up to the commit pointer are left alone, and the node starts where it stopped |
| `Restart.CrashIsReplayableIff` | crates/hermesmq-core/src/engine/mod.rs:70-99 | The log a crash leaves, at any instant of any run, can be replayed if and only if no index lost to a failed write is among those to be replayed |
| `Restart.CrashThenStart` | crates/hermesmq-core/src/engine/mod.rs:70-99 | Log store and state machine together: crash at any instant of any run and start again; be the node that never stopped if no lost index is to be replayed, and fail otherwise |
| `Restart.HoledDiskCannotStart` | crates/hermesmq-core/src/engine/mod.rs:70-99 | A disk left by a failed write: the repair changes nothing, the commit pointer is handed out, an entry before it is missing and the start fails |
| `Nodes.RestartsNeverShow` | crates/hermesmq-core/src/engine/state_machine.rs:122-137 | From a new node, over any sequence of learning, applying, capturing, storing, accepting and installing snapshots and restarting from what survived, in any order between one another, the state after every start that succeeds is a function of how far the node has applied |
| `Nodes.StartGoesTo` | crates/hermesmq-core/src/engine/state_machine.rs:122-137 | After any such sequence, when a start succeeds and how far it gets: to the commit pointer if the log serves it, and never less far than the stored snapshot |
| `Nodes.LateStoreGoesBack` | crates/hermesmq-core/src/engine/state_machine.rs:283-306 | A start can go back: a snapshot captured before one is installed and stored after it leaves the node behind what it had applied |
| `Tracking.SubTracking.DeliverOffset` | crates/hermesmq-core/src/client.rs:74-113 | In-place `deliver` with its three outcomes and the forgetting of the oldest alias |
| `Tracking.SubTracking.ResolveLease` | crates/hermesmq-core/src/client.rs:115-125 | In-place `resolve`, also for an unknown lease |
| `Tracking.SubTracking.DrainLeases` | crates/hermesmq-core/src/client.rs:127-131 | Everything is forgotten and the current leases are returned, each once |
| `Tracking.SubTracking.LiveCount` | crates/hermesmq-core/src/client.rs:133-152 | Stale tracks go with all their aliases; the count is of the leases still running |
| `TrackingRuns.TrackingKeeps` | crates/hermesmq-core/src/client.rs:74-152 | Under never-repeating lease ids every run keeps the lease index the exact inverse of the alias lists, at most eight each and newest last, and keeps recently acknowledged offsets apart from tracked ones |
| `TrackingRuns.TrackingOfQueue` | crates/hermesmq-core/src/client.rs:74-152 | Queue and subscription together: if each message of a queue run's answers is handed over at most once, in any order, the lease ids do not repeat and the bookkeeping stays consistent |
| `TrackingRuns.TrackTells` | crates/hermesmq-core/src/client.rs:81-99 | While an offset stays tracked its aliases are the last eight leases it was delivered under and its count is their number modulo three |
| `Subscriptions.EachOffsetAlone` | crates/hermesmq-core/src/client.rs:74-152 | The three maps are one standing per offset: over every run each follows from the offset's own deliveries, answers to its own last eight leases, sweeps and closing, and alone decides how the next delivery is answered |
| `Subscriptions.AnswerGoesTo` | crates/hermesmq-core/src/client.rs:115-125 | An answer to a lease is taken for the newest lease of the one offset that was handed over under it as one of its last eight; an unknown lease changes nothing |
| `Subscriptions.GivenBackIsPushed` | crates/hermesmq-core/src/client.rs:115-125 | A message given back is not lost: nothing is remembered of it, and its next delivery, at any time, is pushed and begins a track of its own |
| `Subscriptions.ClosingGivesBack` | crates/hermesmq-core/src/client.rs:127-131 | Closing gives back the newest lease of each offset that is out, each once and no others |
| `Subscriptions.LiveIff` | crates/hermesmq-core/src/client.rs:133-152 | An offset counts as live exactly if it is out and its newest lease is still running |
| `TrackingRuns.EveryThirdIsPushed` | crates/hermesmq-core/src/client.rs:83-99 | The n-th delivery since the first is pushed exactly when n is a multiple of three |
| `TrackingRuns.AnyAliasGivesNewest` | crates/hermesmq-core/src/client.rs:115-125 | Resolving any of the last eight leases yields the newest and forgets them all |
| `TrackingRuns.AckedStaysAcked` | crates/hermesmq-core/src/client.rs:75-80 | An acknowledged offset is not handed over again before the time it is remembered until, whatever else happens on the subscription |
| `TrackingRuns.ResolveAcks` | crates/hermesmq-core/src/client.rs:121-123 | Resolving a lease with a time makes its offset acknowledged until then |
| `TrackingRuns.LateAckCompletes` | crates/hermesmq-core/src/queue.rs:712-721 | So a late acknowledgement completes the message in the queue while the newest lease is in flight |
| `RateLimit.RateLimiter.TakeTokens` | crates/hermesmq-core/src/client.rs:202-236 | In-place `take` on one topic's bucket, other topics untouched |
| `RateLimit.RateLimiter.RefundTokens` | crates/hermesmq-core/src/client.rs:238-246 | In-place `refund`; a topic without a bucket is left without one |
| `RateLimit.GrantsAreBounded` | crates/hermesmq-core/src/client.rs:202-250 | From any state, over any calls within T seconds, grants less refunds are at most burst plus rate times T plus a burst per removal, and the bucket stays between empty and full |
| `RateLimit.WaitingSuffices` | crates/hermesmq-core/src/client.rs:220-232 | After a refusal, a take of at least one token once the returned delay has passed is granted if and only if the rate is positive |
| `RateLimit.WaitingLessFails` | crates/hermesmq-core/src/client.rs:224-230 | A millisecond less than the returned delay and the take is refused again |
| `RateLimit.GrantIsMaximal` | crates/hermesmq-core/src/client.rs:222-235 | A take that finds a token is granted all it wants or all the whole tokens there are, and exactly that leaves the bucket |
| `RateLimit.TakeIs` | crates/hermesmq-core/src/client.rs:202-236 | Exactly what a take gets and leaves: the lesser of a burst and what was left plus rate times seconds, all wanted or all whole tokens of it, and a refusal without a whole token |
| `RateLimit.RefundUndoesTake` | crates/hermesmq-core/src/client.rs:238-246 | A grant given back at once is in the bucket again in full |
| `RateLimit.RefundIs` | crates/hermesmq-core/src/client.rs:238-246 | A refund adds what is given back, up to a burst, to a bucket that is there |

## Left out

- Raft itself (elections, replication, membership changes): a library; what is used of it is that committed entries are numbered from zero, that appends are consecutive and that it truncates only above what it has purged.
- The storage engine: an ordered map of log entries and single records; each call is one step, and a batch is written as a whole or not at all.
- Wire formats: the codec is a pair of functions of which one inverts the other; the conversion of older snapshots is its third function and nothing is said about what it converts.
- Sockets, heartbeats, notifications, permits, the peer network, authentication, HTTP, metrics and the daemon: plumbing around the modelled core.
- `Rejected` carries no reason text, and name lengths count characters rather than bytes.
- The flusher in `log_store` may stop collecting after any job, which covers the entry and byte limits and more; `log_object` has the limits.
- Recording a purge and cutting the log are one step, so a crash between the two is not modelled.
- Open-ended read ranges, whose end is the last index as `LogState.ReportedIndex` has it.
- LogState.LogStateIsLastIff: only the flusher's steps fall between the reads, since the call is made by the log's one writer.
- Validated.ValidStaysValidIff: asks that a group with an offset both acknowledged and leased has a name a request may carry, which the validator does not check; a commit to a longer name is refused, so for such states only `Validated.OperationsKeepValidIff` is stated.
- Selection.Select: works on the filtered candidates; the source filters in the same loop, which here is `TopicObject.Topic.Open` before it. The heap is a set from which the worst is taken.
- RateLimit.GrantsAreBounded: over real numbers, without floating-point rounding; the clock is an input that does not go back.
- Tracking.SubTracking.DrainLeases: the order of the returned leases is left open, as the order of a hash map is.
- Topics with more than 1024 groups: the invariant includes at most that many, which the admission limit of 1000 keeps; the collection of drained groups past that number is modelled but no run reaches it.
