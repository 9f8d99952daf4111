# Verification of stocker-informer

stocker-informer takes stock-summary signals from a RabbitMQ queue, reads each stock's
summary from object storage, optionally has it rewritten, and publishes the result on
GoToSocial. Several replicas may compete for the same queue. This project models the parts
of that program whose correctness does not follow from reading one function, and proves
what its comments and documentation promise of them. `dafny verify dfyconfig.toml` checks
everything.

## What is modelled

**Delivery and settlement.** `Protocol` is an automaton over the calls one replica makes at
its boundary: context checks, dial, channel, declarations, deliveries, the pipeline's
collaborators, settlements, closes, sleeps. Any answer may come back from any call; the one
constraint is that nothing is reported as cancelled before cancellation, and that
cancellation is never taken back. `Discipline` proves what every trace of that automaton
keeps, by monitors that read the trace alone. `Cluster` puts any number of replicas around
one broker queue: a ready bag, an unacked record per channel and tag, frames in flight, tags
that restart on every channel (AMQP 0-9-1, sections 3.1.7 and 3.1.8, with RabbitMQ's
`basic.nack`). Session death, lost frames, failed settlement calls, redelivery and
cancellation are steps that may fall between any two others, and a replica may see its
stream end while the broker still holds the channel open, so that it redials with its old
deliveries and frames still live. Besides the truth about cancellation the only constraint is
that a replica receives what the broker sent on its channel, in that order. `Guarantees`,
`Provenance` and `QuietRuns` hold the safety results over all its runs. `Effects` proves the
other direction, that calls take effect at the broker, and `Progress` that every run can go on:
to a ready message's publication and ack, and to a replica's return. `ShutdownOrder` and
`CallOrder` say, by monitors and by what stands right before what, in which order a single
replica makes its calls.

`Worlds`, `Sessions` and `Consumers` are the program itself: the supervisor, one session's
consume loop, the drain, the pipeline for one delivery and the mutex-guarded session, as
classes whose methods make calls on a recording world. Every method is proved to make only
calls the automaton accepts, from the control point it starts at to the one it ends at, and
states which they are (`CallShapes`). `Consumers.Consumer.Run` therefore ends with a complete
trace of the automaton, and `Guarantees.ReplicaTraces` shows that each replica of the cluster
performs a trace of the same automaton, so the results about traces hold of both.

**The readiness probe.** `ProbeCheck` interleaves the two goroutines of one check, the two
buffered channels, the deadline, the selects and a broker that may fall silent. `ProbeRun`
is the supervising loop, whose flags, log lines, sleeps and callback are functions of the
results of its checks. `Readiness` joins the two to the flag behind the health endpoint, with
requests arriving at any time.

**Retry arithmetic.** `Backoff` measures the consumer's closed form, the probe's iterated
doubling and the publisher's 64-bit shift against one capped power of two. `Publisher` is
the publish loop for any retry limit.

**Strings.** `Prefix` and `ObjectKey` are the path-prefix normalisers and the object key;
`ConfigStrings` the broker URL's authority and the recipient handle; `Rewriter` the checks
on a model's report. `Text` holds the trimming, splitting and joining they share, `Bags` the
values of a map with multiplicity.

## Where the code falls short of its description

- `config.normalizePrefix` is not idempotent: it trims the ends before it drops the slashes
  there, so `/ a` becomes ` a` and then `a`. `Prefix.ConfigIdempotentExactlyWhen` says for
  which values it is. Nothing depends on it: the store's own normalisation is idempotent and
  absorbs it (`Prefix.ConfigThenStore`).
- `publishBackoff` follows its documented schedule up to attempt 34, where the shifted
  constant leaves 63 bits. Beyond that it is negative or zero except at eight attempts
  (`Backoff.PublishBackoffIsCappedExactlyWhen`). The program makes three attempts and reaches
  only attempts 0 and 1 (`Publisher.ProgramPauses`).
- `normalizeRecipient` is not idempotent either: a space after a stripped `@`, or at the end
  of a borrowed hostname, survives the first pass
  (`ConfigStrings.RecipientIdempotentExactlyWhen`).
- `Check` assumes that nothing is there to close when the deadline wins its first select
  (internal/rabbitmq/probe.go:121-127). The dial may already have succeeded; the attempt then
  holds the connection alone, and on a silent broker waits until the client library's
  heartbeat gives the connection up (`ProbeCheck.LeftWaitingExactlyWhen`).

## Model

| member | source | states |
|---|---|---|
| Guarantees.ExactlyOnePlace | internal/rabbitmq/consumer.go:113-369 | in every reachable state of any number of replicas, an enqueued message is in exactly one of: ready, unacked under one tag of one open channel, acked |
| Guarantees.NothingInvented | internal/rabbitmq/consumer.go:113-369 | a message that was never enqueued is nowhere |
| Guarantees.SettlesTheRightMessage | internal/rabbitmq/session.go:58-79 | the next settlement the broker reads on an open channel names a tag it still holds there, for the message the replica took under that tag, and settles that message alone; that a settlement call brings such a frame about is Effects.SettlementTakesEffect |
| Effects.SettlementIsSent | internal/rabbitmq/session.go:61-79 | a settlement call on an open channel appends exactly one frame, of its kind, its tag and the message in hand, to that channel's wire when it succeeds, and one or none when it fails |
| Effects.SettlementTakesEffect | internal/rabbitmq/consumer.go:354-369 | from every reachable state, once a settlement call has succeeded on an open channel the broker needs only to read on: the delivery leaves the record, and its message is then acked, or after a nack ready again |
| Effects.CloseReturnsTheRest | internal/rabbitmq/session.go:91-103 | from every reachable state, once a session has closed its channel the broker needs only to read on: the channel is gone, and every delivery that was on record there is then ready or acked, and not both |
| Effects.DeathReturnsTheRest | internal/rabbitmq/consumer.go:354-369 | a channel that dies returns every delivery on record there to the queue and touches no other |
| Guarantees.FramesNameTheirDelivery | internal/rabbitmq/consumer.go:354-369 | every settlement in flight is meant for the message delivered under its tag on its own channel, and an ack in flight belongs to a completed outcome |
| Provenance.FrameOrigin | internal/rabbitmq/session.go:58-79 | every settlement in flight, ack or nack, was pushed by the settlement call of the replica that opened the channel, in its session there, for the delivery it then had in hand |
| Provenance.OnlyItsOwnSessionSettles | internal/rabbitmq/session.go:58-79 | a step that takes a delivery off the broker's record is its own channel going, which requeues the message, or the broker reading a settlement of that tag and message which the session that received it pushed |
| Guarantees.AckedOnlyIfCompleted | internal/rabbitmq/consumer.go:275-369 | an acked message has a delivery whose recorded outcome was not brought about by cancellation |
| Guarantees.OutcomeOrigin | internal/rabbitmq/consumer.go:359-369 | every recorded outcome was recorded by the ack call of a replica for that delivery, on the session that received it |
| Guarantees.AckedMeansHandled | internal/rabbitmq/consumer.go:279-369 | behind every acked message some replica's own trace holds, right before its ack, one whole pipeline for a delivery of that message, ended by something other than cancellation with the context still alive |
| Guarantees.DuplicateAccounting | README.md:523-527 | deliveries plus one if ready equal one plus requeues; successful publications never exceed deliveries; without a requeue there is at most one |
| Guarantees.OnePublicationPerDelivery | internal/rabbitmq/consumer.go:334-342 | successful publications of a message correspond one to one to deliveries of it |
| Progress.PublicationsOnRecord | internal/rabbitmq/consumer.go:334-342 | the record of publications counts exactly the accepted publish calls of the run, message by message |
| Progress.ReadyMessageCanBeAcked | internal/rabbitmq/consumer.go:233-369 | every run in which a message is ready and a living replica waits with an empty buffer can go on: through a publication of the trimmed summary, the rewrite failing if there is one, to a state in which the message is acked |
| Progress.SentCanBeTaken | internal/rabbitmq/consumer.go:241-268 | in every reachable state a replica that waits or drains can take the next delivery the broker has sent on its channel |
| Progress.ReplicaCanStop | internal/rabbitmq/consumer.go:113-273 | every run can go on to any replica's return: once its context is cancelled, by at most twelve acts of its own |
| Guarantees.NothingLostAtRest | internal/rabbitmq/consumer.go:256-273 | once no channel is open every message is ready or acked and not both |
| Provenance.LateSettlementIsHarmless | internal/rabbitmq/session.go:13-79 | however long after its channel closed a session still makes settlement calls, no ack takes effect under that channel's tags again, and each call leaves the broker and every wire as they are |
| Guarantees.ReplicaTraces | internal/rabbitmq/consumer.go:113-187 | what each replica of a cluster run does is a trace of the single-replica protocol |
| Cluster.StepInv | internal/rabbitmq/consumer.go:113-369 | every step of broker, environment or replica keeps conservation, the logs, the channels' counters and wires, and the replicas' hands consistent |
| QuietRuns.QuietRunPublishesAtMostOnce | README.md:523-527 | in a run in which no channel dies, no stream ends and no replica is shut down nothing is requeued, and every message is delivered and published at most once, also when settlement calls fail |
| Discipline.SettlementDiscipline | internal/rabbitmq/consumer.go:233-369 | settlement attempts are exactly the dequeued deliveries, once each, in order, on the session that dequeued them; over the whole run acks come before nacks |
| Discipline.AckMeansCompleted | internal/rabbitmq/consumer.go:275-369 | an ack is attempted only after the whole pipeline ran for that delivery and ended without cancellation, the context being found alive right before it; never for an untouched delivery, nor after a read or a publication that cancellation cut short |
| Discipline.PublishedText | internal/rabbitmq/consumer.go:308-334 | the text published is the trimmed summary read for this delivery if no rewriter is configured, or if the rewrite of it failed or came back blank; otherwise it is that very rewrite's report, trimmed; it is never empty |
| Discipline.PublishedMayBeRequeued | README.md:525-526 | after any successful publication, if the context is then found cancelled, the delivery can be nacked and cannot be acked |
| Discipline.CancelledDeliveryIsRequeued | internal/rabbitmq/consumer.go:279-285 | a delivery taken after cancellation starts no read, rewrite or publication: its own requeueing nack is all that can follow |
| Discipline.ResourceConservation | internal/rabbitmq/consumer.go:113-228 | at every dial and sleep and on return everything opened has been closed once, channel before connection, and at most one session is open at a time |
| Discipline.SleepSchedule | internal/rabbitmq/consumer.go:124-186 | every backoff sleep is min(30s, 2^(k-1) s) for the k failures and losses since the last productive loss, inclusive |
| Discipline.SleepsNeverShrink | internal/rabbitmq/consumer.go:124-186 | between productive losses no sleep is shorter than an earlier one |
| Discipline.ProductiveLossSleepsOneSecond | internal/rabbitmq/consumer.go:162-182 | the next sleep after a productive loss lasts one second, and only the context check and the two closes lie between |
| Discipline.ShutdownIsBounded | internal/rabbitmq/consumer.go:113-273 | once the context is cancelled Run makes at most twelve more calls, plus two for each delivery left in the local buffer, from whatever state it is in |
| Discipline.RankDecreases | internal/rabbitmq/consumer.go:113-273 | every call except a context check that finds it alive lowers the measure of the control point, draining one delivery aside |
| Discipline.NothingStartsAfterCancellation | internal/rabbitmq/consumer.go:118-285 | after a context check that found it cancelled nothing is dialled, received, decoded, read, rewritten, published or acked again |
| ShutdownOrder.CancelBeforeDrain | internal/rabbitmq/consumer.go:233-273 | in every trace a session's drain comes after its own consumer's cancel, nothing but draining and nacking comes between them and the poll that finds the buffer empty, and nothing is taken or worked on without a live subscription |
| ShutdownOrder.CancelExactlyWhen | internal/rabbitmq/consumer.go:235-252 | the consumer is cancelled by exactly those calls that come right after the check at the head of consume's loop found the context cancelled, or right after the wait was interrupted |
| CallOrder.SettlementFollowsItsCheck | internal/rabbitmq/consumer.go:359-369 | a settlement is an ack exactly if the call before it is a check that found the context alive, and a nack exactly if it is one that found it cancelled or the drain of that delivery |
| CallOrder.ReceiptFollowsCheck | internal/rabbitmq/consumer.go:235-247 | every delivery is taken right after a check that found the context alive |
| CallOrder.DialFollowsSleep | internal/rabbitmq/consumer.go:117-186 | every dial comes right after a check that found the context alive, and every dial but the first with a finished sleep right before that |
| CallOrder.SubscriptionFollowsSetup | internal/rabbitmq/consumer.go:193-228 | every subscription comes right after a dial, a channel, exchange, queue, binding and prefetch limit, each successful and in this order |
| CallOrder.SleepFollowsLoss | internal/rabbitmq/consumer.go:124-185 | every sleep comes right after a check that found the context alive, or after that check and the two closes of the lost session |
| CallOrder.ReturnsAt | internal/rabbitmq/consumer.go:118-185 | Run returns right after a check that found the context cancelled, an interrupted sleep, or such a check and the two closes |
| CallOrder.FirstSleepLastsOneSecond | internal/rabbitmq/consumer.go:124-140 | the first sleep of a run lasts one second |
| CallOrder.SleepsDouble | internal/rabbitmq/consumer.go:124-186 | every later sleep lasts twice as long as the one before it, up to thirty seconds, unless a session that had delivered something was lost in between |
| Discipline.ReturnsOnlyWhenCancelled | internal/rabbitmq/consumer.go:107-122 | Run returns only after cancellation was observed |
| Discipline.CompleteRun | internal/rabbitmq/consumer.go:113-369 | a complete run has settled every dequeued delivery once, in order, closed everything, and ended by cancellation |
| Protocol.NeverStuck | internal/rabbitmq/consumer.go:113-369 | until Run has returned some next call is always possible |
| Consumers.ProgramRun | internal/rabbitmq/consumer.go:107-369 | all of this for the program's own trimming and backoff: a complete run settles everything once and in order, closes everything, sleeps on the documented schedule and publishes only trimmed, non-empty text |
| Consumers.Consumer.Run | internal/rabbitmq/consumer.go:113-187 | ends only after cancellation, without an error, having made exactly a complete accepted trace |
| Consumers.Consumer.Begin | internal/rabbitmq/consumer.go:118-122 | one context check, which stops a cancelled run before any dial |
| Consumers.Consumer.Count | internal/rabbitmq/consumer.go:124-131 | one context check after a failed connect: it stops a cancelled run, and otherwise one failure is added before the sleep |
| Consumers.Consumer.Backoff | internal/rabbitmq/consumer.go:140-143 | one sleep, of the delay for the failure count; an interrupted sleep ends the run |
| Consumers.Consumer.Serve | internal/rabbitmq/consumer.go:147-181 | all calls of a session: a check, then the closes at once, or consume, a check and the closes; the count for the next sleep is one if it delivered anything and one more than before if not |
| Consumers.Consumer.Leave | internal/rabbitmq/consumer.go:163-181 | its calls are a check, the channel's close, the connection's; a loss counts from zero if the session delivered anything |
| Consumers.Consumer.TearDown | internal/rabbitmq/session.go:91-103 | its calls are the channel's close, then the connection's, and the session refuses everything from then on |
| Consumers.Consumer.Connect | internal/rabbitmq/consumer.go:193-228 | all its calls: dial, channel, the five declarations, up to the first failure, after which what was opened is closed, channel before connection |
| Consumers.Consumer.Open | internal/rabbitmq/consumer.go:198-228 | the same from the dialled connection on |
| Consumers.Consumer.SetUp | internal/rabbitmq/consumer.go:204-226 | the same from the open channel on |
| Consumers.Consumer.DeclareTopology | internal/rabbitmq/consumer.go:209-226 | its calls are exchange, queue, binding, QoS, consume, spelled out in that order, all but the last successful, up to the first failure |
| Consumers.Consumer.CloseBoth | internal/rabbitmq/consumer.go:204-208 | its calls are the channel's close, then the connection's |
| Consumers.Consumer.Consume | internal/rabbitmq/consumer.go:233-254 | among all its calls, the deliveries taken are those settled, once each and in order, and nothing is opened or closed; no consumer is cancelled and nothing drained before its last turn, which without an error is what stopped it, the consumer's cancel and the drain, and with one a live check and the stream's end; it reports whether any delivery arrived |
| Consumers.Consumer.Turn | internal/rabbitmq/consumer.go:235-253 | its calls are a live check, a delivery and that delivery handled; or a live check and the stream's end; or the check or interruption that stopped it, the consumer's cancel, each buffered delivery nacked and the empty poll |
| Consumers.Consumer.LastTurn | internal/rabbitmq/consumer.go:236-251 | the turn that notices shutdown: what it observed, then the cancel, each drained delivery nacked, and the empty poll |
| Consumers.Consumer.DrainDeliveries | internal/rabbitmq/consumer.go:256-273 | its calls are: take a buffered delivery and nack its tag, again and again, until the first empty poll |
| Consumers.Consumer.CancelAndDrain | internal/rabbitmq/consumer.go:236-251 | the consumer is cancelled first, then the buffer drained |
| Consumers.Consumer.HandleDelivery | internal/rabbitmq/consumer.go:275-352 | all its calls on every path: work for this delivery, then exactly one settlement attempt, of its own tag, as the last |
| Consumers.Consumer.Process | internal/rabbitmq/consumer.go:289-342 | the same for a delivery found alive, from decoding on |
| Consumers.Consumer.RewriteAndPublish | internal/rabbitmq/consumer.go:315-342 | the same from the text on, rewriting only if a rewriter is configured |
| Consumers.Consumer.ReadText | internal/rabbitmq/consumer.go:289-313 | decode, read and trim; a failure or an empty summary decides the outcome |
| Consumers.Consumer.ChooseText | internal/rabbitmq/consumer.go:315-332 | the text chosen is the summary itself after a failed or blank rewrite, and the trimmed report after any other; the rewrite is one call, of that summary |
| Consumers.Consumer.PublishAndSettle | internal/rabbitmq/consumer.go:334-342 | publishes the text once and then settles once, whatever came of it |
| Consumers.Consumer.Settle | internal/rabbitmq/consumer.go:354-369 | one context check, then one attempt: a nack if cancelled, else an ack, never retried |
| Worlds.World.Sleep | internal/rabbitmq/consumer.go:417-426 | the timer and the context race; an interruption means cancellation |
| Worlds.World.Await | internal/rabbitmq/consumer.go:241-252 | the select yields a delivery, the stream's end or, only once cancelled, the context |
| Worlds.World.TryReceive | internal/rabbitmq/consumer.go:259-273 | a non-blocking receive takes one delivery from a finite buffer or reports none |
| Sessions.Session.AckTag | internal/rabbitmq/session.go:58-68 | a closed session refuses without touching the channel; an open one makes one ack call |
| Sessions.Session.NackTag | internal/rabbitmq/session.go:70-79 | likewise for a requeueing nack |
| Sessions.Session.Cancel | internal/rabbitmq/session.go:81-89 | one cancel call unless the session is closed |
| Sessions.Session.Close | internal/rabbitmq/session.go:91-103 | only the first call reaches the channel, then the connection |
| Sessions.WireShape | internal/rabbitmq/session.go:58-103 | for any interleaving of any number of callers: one call per operation up to the first close, then one channel close and one connection close, and nothing after |
| Sessions.LateSettlementRefused | internal/rabbitmq/session.go:13-79 | a settlement is refused, and reaches nothing, exactly when a close came before it |
| Backoff.BackoffDelayIsCapped | internal/rabbitmq/consumer.go:401-412 | the closed form is min(30s, 2^(n-1) s) for every count, without overflow |
| Backoff.IteratedIsCappedExactlyWhen | internal/rabbitmq/probe.go:203-207 | for every initial delay up to any 64-bit cap, repeated min(2d, max) is the capped power at every step exactly when the initial delay is zero or the cap is below 2^62; from there on it wraps |
| Backoff.ProbeMatchesConsumer | internal/rabbitmq/probe.go:72-81 | n-1 doublings of the probe's delay equal the consumer's delay for n failures |
| Backoff.BackoffDelayMonotone | internal/rabbitmq/consumer.go:401-412 | more failures never shorten the delay; it stays within 1s and 30s |
| Backoff.DelayDoubles | internal/rabbitmq/consumer.go:401-412 | the first delay is 1,000,000,000 ns and each next one twice the one before, up to 30,000,000,000 ns |
| Backoff.PublishShiftExactUpTo34 | internal/messenger/gotosocial_publisher.go:139-146 | the 64-bit shift keeps its mathematical value exactly for attempts up to 34 |
| Backoff.PublishBackoffIsCappedExactlyWhen | internal/messenger/gotosocial_publisher.go:139-146 | the publisher's delay is min(30s, 500ms * 2^n) exactly for n up to 34 and eight larger n |
| Publisher.Publish | internal/messenger/gotosocial_publisher.go:88-137 | for any limit of at least one: it succeeds exactly if the last reply is a status from 200 to 299, with that reply's id; every earlier attempt failed to be sent or got a status outside that range; an error names the last attempt's failure and, unless the request could not be built, comes only after the last allowed attempt; attempts and backoffs are those of the schedule; the trailing return is dead |
| Publisher.AttemptsUnique | internal/messenger/gotosocial_publisher.go:94-134 | replies and limit determine the number of attempts |
| Publisher.StopsAtFirstSuccess | internal/messenger/gotosocial_publisher.go:94-134 | the number of attempts is min(first status from 200 to 299, limit), and the result is a success exactly if that comes within the limit |
| Publisher.GivesUpExactlyWhen | internal/messenger/gotosocial_publisher.go:94-136 | an error is returned exactly when every allowed attempt failed to be sent or got a status outside 200 to 299 |
| Publisher.ScheduleShape | internal/messenger/gotosocial_publisher.go:94-134 | attempts and pauses alternate, starting and ending with an attempt; pause i is the backoff for attempt i |
| Publisher.PausesAreCappedExactlyWhen | internal/messenger/gotosocial_publisher.go:139-146 | every pause is the documented one exactly for limits up to 36 |
| Publisher.ProgramPauses | internal/messenger/gotosocial_publisher.go:17-23 | the program makes at most three attempts, with pauses of half a second and of one second between them |
| ProbeCheck.StepInv | internal/rabbitmq/probe.go:93-159 | every move of caller, attempt, deadline or broker keeps what each has done, and what travels on the channels, consistent |
| ProbeCheck.NilMeansVerified | internal/rabbitmq/probe.go:84-159 | Check returns nil only if both passive declares passed on this attempt's connection, exchange first, which was then closed, its channel first |
| ProbeCheck.VerdictIsTrue | internal/rabbitmq/probe.go:93-159 | each error names what the attempt met; giving up means the deadline passed |
| ProbeCheck.CallerDecides | internal/rabbitmq/probe.go:114-138 | in terms of what the caller received: it returns aborted exactly if it never took the dial's result, timed out exactly if it took a dialled connection and not the report, and then, and only then, it has closed the connection, once |
| ProbeCheck.EveryVerdictOccurs | internal/rabbitmq/probe.go:93-159 | for each verdict there is a run that ends in it |
| ProbeCheck.AttemptNeverBlocks | internal/rabbitmq/probe.go:101-112 | under every interleaving the attempt can make its next move unless it waits for a silent broker on a connection the caller has not closed; no channel ever blocks it |
| ProbeCheck.TimedOutAttemptFinishes | internal/rabbitmq/probe.go:132-138 | whenever the caller has returned with the dialled connection in hand and without the attempt's report, the attempt runs to its end by itself however silent the broker |
| ProbeCheck.LeftWaitingExactlyWhen | internal/rabbitmq/probe.go:114-138 | a caller that has returned leaves the attempt waiting exactly when it never took the dial's result and the broker is silent at one of the attempt's operations; the dial had then succeeded |
| ProbeCheck.AttemptLeftWaiting | internal/rabbitmq/probe.go:121-127 | that can happen: the select picks the deadline although the dial has succeeded |
| ProbeCheck.AttemptFreed | internal/rabbitmq/probe.go:132-138 | so can the timeout after the dial, at an operation of the attempt on a silent broker, with one close by the caller |
| ProbeCheck.CallerNeverStuck | internal/rabbitmq/probe.go:114-138 | once the deadline or the attempt is over the caller has a move until it returns |
| ProbeCheck.EverythingClosed | internal/rabbitmq/probe.go:121-159 | when both are done a dialled connection was closed once, or twice exactly when the caller took the dial's result and not the report; an opened channel once; a failed dial nothing |
| ProbeCheck.CheckTerminates | internal/rabbitmq/probe.go:89-92 | every interleaving ends within thirteen steps |
| ProbeRun.Probe.Run | internal/rabbitmq/probe.go:161-227 | log lines, sleeps and callback are functions of the check results; among any health requests the callback comes right after the first success; it returns only once cancelled |
| ProbeRun.Probe.Failed | internal/rabbitmq/probe.go:179-208 | a failed check leaves flags, counter, delay and output as the history says |
| ProbeRun.Probe.Succeeded | internal/rabbitmq/probe.go:210-226 | so does a successful one |
| ProbeRun.Probe.OnFailure | internal/rabbitmq/probe.go:180-201 | the one line a failed check logs, and the flags after it |
| ProbeRun.Probe.OnSuccess | internal/rabbitmq/probe.go:210-220 | the line and the callback of a successful check, and the flags after it |
| ProbeRun.LogShape | internal/rabbitmq/probe.go:161-227 | transitions in the log are a prefix of verified (lost restored)*, and their number tells the flags |
| ProbeRun.EarlyLines | internal/rabbitmq/probe.go:180-195 | until the first success the log holds one line per failure: its number, the capped delay after it, loud for the first and every tenth |
| ProbeRun.LaterLines | internal/rabbitmq/probe.go:196-220 | after the first success a check adds a loss when it fails for the first time, a recovery when it succeeds again, a faint line while still lost, and otherwise nothing |
| ProbeRun.PauseSchedule | internal/rabbitmq/probe.go:203-226 | over every history every sleep is the capped power for the current streak of failures, or the healthy interval, exactly when the first delay is zero or the cap is below 2^62 |
| ProbeRun.PauseRecurrence | internal/rabbitmq/probe.go:203-223 | after a success the long sleep, after the first failure the first delay, after each further one the delay before it, doubled and capped |
| ProbeRun.NotifiedOnce | internal/rabbitmq/probe.go:161-165 | the callback runs exactly once if any check succeeded, right after the first that did, and otherwise never |
| Readiness.Flag.StoreTrue | cmd/server/main.go:97 | the callback sets the flag |
| Readiness.Flag.Health | cmd/server/main.go:115-130 | the response is 200 if the callback has run and 503 if not, and nothing else changes |
| Readiness.OkMeansVerified | cmd/server/main.go:89-130 | behind every 200 there is an earlier check that returned nil, whose attempt passed both passive declares on one connection, exchange first |
| Readiness.ReadyExactlyWhen | cmd/server/main.go:89-130 | a request gets 200 exactly when a check has returned nil before it and the probe has gone on since, and 503 in every other case |
| Readiness.CallbackComesNext | internal/rabbitmq/probe.go:210-216 | after a check that returned nil the callback is the first thing the probe does |
| Readiness.ReadinessIsSticky | cmd/server/main.go:115-130 | for any order of checks, callback and requests, never 503 after 200; 200 only after the callback, and always after it |
| Prefix.NormalizeConfigPrefix | internal/config/config.go:522-532 | the loop computes the specified prefix |
| Prefix.NormalizeStorePrefix | internal/summarystore/store.go:216-227 | likewise for the store |
| Prefix.ConfigPrefixMeans | internal/config/config.go:522-532 | what that is: the trimmed value cut at its slashes, its non-empty pieces kept unchanged and in order, none left out, joined with single slashes |
| Prefix.StorePrefixMeans | internal/summarystore/store.go:216-227 | what that is: the value cut at its slashes, each piece trimmed, those with anything left kept in order, none left out, joined with single slashes |
| Prefix.ConfigThenStore | internal/summarystore/store.go:98-102 | store(config(p)) equals store(p) for every string |
| Prefix.StoreIdempotent | internal/summarystore/store.go:216-227 | the store's normalisation is idempotent |
| Prefix.OneNormalisation | internal/summarystore/store.go:176-198 | config load, client construction and key building normalise as one |
| Prefix.StoreSegmentsSplit | internal/summarystore/store.go:216-227 | the normalised prefix splits back into its segments, each trimmed and non-empty |
| Prefix.ConfigIdempotentExactlyWhen | internal/config/config.go:522-532 | a second config pass changes nothing exactly when no white space is left behind the slashes at the ends |
| Prefix.ConfigNotIdempotent | internal/config/config.go:522-532 | it does change `/ a` |
| ObjectKey.KeyRoundTrip | internal/summarystore/store.go:168-202 | splitting a key on slashes recovers the normalised prefix, and exchange and symbol trimmed and upper-cased character by character |
| ObjectKey.KeySpelled | internal/summarystore/store.go:197-201 | every key is the normalised prefix and a slash, if there is one, the upper-cased exchange, a slash, the upper-cased symbol and "/summary.md" |
| ObjectKey.KeyInjective | internal/summarystore/store.go:168-202 | two identities share a key exactly when they normalise alike |
| ObjectKey.KeyIsSafe | internal/summarystore/store.go:172-214 | no key starts with a slash, has an empty piece, or holds ".." anywhere |
| ObjectKey.KeyRefusedExactlyWhen | internal/summarystore/store.go:174-214 | refused exactly for a blank exchange or symbol, a slash in one, or ".." in any input |
| ObjectKey.RefusalIsFirstFailure | internal/summarystore/store.go:181-214 | each refusal names the first check, in their order, that the raw inputs fail |
| ObjectKey.NormalisersKeepDots | internal/summarystore/store.go:193-198 | neither normaliser makes or hides a ".." |
| ObjectKey.PrefixPipeline | internal/summarystore/store.go:98-113 | the configured prefix gives the key, or refusal, of the raw value |
| ObjectKey.Client.constructor | internal/summarystore/store.go:90-104 | the prefix is normalised at construction |
| ObjectKey.Client.ReadSummary | internal/summarystore/store.go:106-131 | a refused identity costs no request; any other exactly one, at its key, whose answer decides: the body, not found exactly for a definite miss, or a storage error |
| ObjectKey.DecodedExactlyWhen | internal/rabbitmq/consumer.go:434-454 | a body is usable exactly if it decodes and both fields hold more than white space; they are handed on trimmed, and an error names the first that fails |
| ObjectKey.DecodedStockKey | internal/rabbitmq/consumer.go:434-454 | a decoded stock's identity gives the key of the untrimmed one, refused only for a slash or ".." |
| ConfigStrings.AuthorityOfPrinted | internal/config/config.go:440-454 | the authority parser inverts the URL printer (RFC 3986, section 3.2); user info may hold "@" |
| ConfigStrings.AuthorityIsHost | internal/config/config.go:440-454 | whatever it returns is the host and port of a well-formed reading of the value, its parts and delimiters spelled out; it finds none exactly without "://" |
| ConfigStrings.RecipientShape | internal/config/config.go:472-502 | an accepted recipient is user@domain with one "@" and both sides non-empty, given a hostname without "@"; it is the stripped handle, or that with "@" and the hostname added if it had no "@" |
| ConfigStrings.RecipientAcceptedExactlyWhen | internal/config/config.go:472-502 | accepted exactly when, trimmed and freed of one "@", it is user@domain or a bare user with a hostname to borrow |
| ConfigStrings.RecipientMissingExactlyWhen | internal/config/config.go:475-487 | it is reported as missing exactly when it holds nothing but white space |
| ConfigStrings.RecipientIdempotentExactlyWhen | internal/config/config.go:472-502 | a second pass changes nothing exactly when no white space follows the stripped "@" and a borrowed hostname does not end in any |
| ConfigStrings.RecipientNotIdempotent | internal/config/config.go:472-502 | it does change the result for `@ a` |
| Rewriter.AcceptedReport | internal/rewriter/ollama.go:124-139 | an accepted report is the response without its outer white space, non-empty, complete and within the cap |
| Rewriter.AcceptedExactlyWhen | internal/rewriter/ollama.go:124-139 | a response is accepted exactly if complete, not cut off at the token limit, not blank and within the cap if there is one; a refusal names the first of these that fails |
| Rewriter.AcceptedReportIsPublished | internal/rabbitmq/consumer.go:315-332 | the consumer publishes an accepted report as it is; its blank-report branch is dead with this rewriter |
| Rewriter.PublishedIsSummaryOrReport | internal/rabbitmq/consumer.go:308-334 | everything published is trimmed and non-empty: the trimmed summary of this delivery without a rewriter or after its rewrite failed, otherwise the report of that very rewrite, one the rewriter accepted, within the cap |

## Left out

- Runs that never end: a `World` carries the number of calls left until cancellation, so `Run` terminates in the model; a run in which cancellation never comes is covered prefix by prefix, every finite prefix being accepted by the same automaton.
- Blocking and time: durations are numbers and the wall clock is not modelled. Each external call is taken to return, except the attempt's operations on a silent broker in `ProbeCheck`; closing a connection always returns, and the heartbeat that would end the attempt's wait is not a step.
- Prefetch and queue order: the broker may deliver any ready message to any open channel at any time, which includes every order a real broker chooses.
- The redelivered flag, routing keys, consumer tags and AMQP frames other than settlements and closes.
- amqp091-go, the AWS SDK, net/http, TLS and the deadlines of `dialAMQP` (internal/rabbitmq/session.go:120-157): their results are arbitrary answers.
- Protobuf and JSON: a body decodes to a value or fails; the parts of `Rewrite` and `publish` before a decoded reply (transport, status, decoding) are answers too.
- `form`, the mapping from audience to form fields (internal/messenger/gotosocial_publisher.go:66-86): three independent branches.
- Most of `config.Load`, `validateURL`, `RedactedAMQPURL`, `invalidAMQPPort` and everything that wraps `url.Parse`; `normalizeRecipient` takes the hostname as a parameter.
- Unicode: a string is a sequence of scalar values, so invalid UTF-8 is not modelled; the upper-case mapping is any character mapping that keeps "/" and "." apart from everything else.
- Log attributes and levels, and all log lines outside the probe's loop.
- The width of the failure and attempt counters, which are unbounded here.
- Methods of the source that do several things in a row (`Run`, `connect`, `handleDelivery`) are several methods here; the failure paths and their order are the source's.
- Exactly-once publication: not claimed by the program and false; `Discipline.PublishedMayBeRequeued` shows the window.
- Containers, deployment files, the shell script and the live tests.
