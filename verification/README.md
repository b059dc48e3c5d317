# Verified model of gomailer

This Dafny project models the queue side of gomailer, a service that takes email requests from RabbitMQ or Kafka, tries to
send each of them, retries temporary failures after a growing delay and dead-letters what nobody handled. It proves
properties of whole runs of that system, of the arithmetic and naming it stands on, of the formats it writes and of two
small stateful clients.

`dafny verify dfyconfig.toml` checks everything. Every lemma turns automatic induction off.

- **The delayed-retry machine** (`DelayedRetry`) is the protocol both transports are meant to follow: tasks with a body, an
  attempt and a due time, handler calls, and the decisions to try again that follow them. Both transports carry its ledger
  as history and refine it step by step.
- **RabbitMQ** (`RabbitBroker`, `RabbitSafety`, `RabbitRelease`, `RabbitFaultFree`, `RabbitTermination`, `RabbitOutcomes`,
  `RabbitConsumer`): a state machine of queues, unacknowledged deliveries and any number of consumers. Its events include
  unconfirmed publishes, confirms lost after the message was enqueued, failed acks and nacks, dropped connections and crashed
  consumers. A publish to an undeclared queue is confirmed and dropped, so that no message is lost rests on the topology.
  `RabbitConsumer` holds the consumer's own code, proved to make steps of that machine.
- **Kafka** (`KafkaBroker`, `KafkaSafety`, `KafkaNoLoss`, `KafkaProgress`, `KafkaOutcomes`, `KafkaConsumer`): partition logs,
  committed offsets, and members with fetch positions, through assignments, revocations, restarts, failed produces and
  commits, and cancellation. A partition may have several members at once, so an expelled member that carries on is covered.
  The assumption stated in the comment on `KafkaSource.apply`, that a produce fails only once the context is cancelled, is
  the field `strict` of the configuration: with it nothing is lost, and without it a run that loses a message is given.
- **Retry arithmetic and topology** (`RetryPolicies`, `Topologies`), with Go's int64 wrap-around.
- **What one attempt does** (`Delivery`, `Models`, `Utf8`), **formats** (`Recipients`, `Base64`, `Multipart`, `MimeReader`,
  `MimeRoundTrip`, `MimeHeaders`, `ClientContract`) and **stateful clients** (`TokenSource`, `ClientSender`).

Code that updates state in place is written as methods on classes, or as loops, each against a specification function; the
theorems are about those functions and about runs, and say what the functions mean on the fields of their arguments.

Three hypotheses recur. `RetryPolicy.Sound` is what the configuration checks (`internal/application/config/retry_config.go:29-47`)
and that the last doubling of a delay fits in an int64, which nothing checks; `HalfRangeFits` shows that any cap up to 146
years will do. `Consistent` says that queues left on the broker were declared by this program, under any policies. Kafka's
clock stays below the year 292 million (`ClockFits`), so that milliseconds fit in an int64.

Where the code does less than its comments promise, the exact condition is proved:

- `Delay` is the promised capped doubling exactly when the doublings fit in an int64 (`DelayIsCappedDoublingIff`).
- Kafka offsets pass only resolved records exactly when a failed produce implies cancellation (`CommitsSafeIffStrict`).
- A record covered by a successful commit is polled again only where a member with an older position commits short of it
  (`CommittedNotPolledAgain`).
- An attachment is read back exactly when its type has no CRLF and its name no CRLF, quote or backslash
  (`MixedRoundTrip`): names and types are written unescaped.
- A list of recipients sent as an array is read back exactly when no entry contains a comma (`WireRecipientsIff`), and the
  server refuses a prepared email exactly when its recipients are only commas and spaces (`BlamedOnlyForCommas`).
- A token served from the cache is unexpired at the provider exactly when refreshes take at most the 60 s margin
  (`UnexpiredIffWithinMargin`).

## Model

| member | source | states |
|---|---|---|
| DelayedRetry.ReplayInv | internal/core/mailer/service.go:15-23 | after any allowed moves, every scheduled task is a message's first one or was scheduled by a decision taken after a call of the attempt before it, body unchanged, and no call is earlier than its due time less 1 ms or than that decision |
| DelayedRetry.RetrySpacing | internal/core/mailer/service.go:94-99 | a call of attempt n + 1 follows a call of attempt n of the same message and body, and starts after the moment that call's outcome was applied plus Delay(n) less 1 ms, however long the handler took |
| DelayedRetry.WaitsAddUp | internal/core/mailer/retry.go:16-24 | a call of attempt n comes after calls of all the attempts before it, and no earlier than the first of them plus the sum of their delays and of the time their handlers took, less 1 ms each |
| DelayedRetry.StartFollowsDecision | internal/core/mailer/service.go:94-99 | over any sequence of moves, each start of a retry is preceded by the move that decided it, by more than the delay less 1 ms |
| DelayedRetry.AttemptsBounded | internal/core/mailer/retry.go:39-42 | a message that entered on attempt 1 is never handled on an attempt above MaxAttempts |
| DelayedRetry.AllAttemptsCalled | internal/core/mailer/retry.go:39-42 | a message handled on an attempt was handled on every attempt from the one it entered with |
| RabbitSafety.NoMessageIsLost | internal/infrastructure/messaging/rabbitmq_dispatch.go:16-77 | under every interleaving and fault, each message accepted into the main queue was sent, or accepted by its failure callback, or has a live copy with its body in the main queue, a retry queue that returns it there, the dead-letter queue or with a consumer that has not settled it |
| RabbitSafety.PublishNeverMissesItsQueue | internal/infrastructure/messaging/rabbitmq_dispatch.go:25-30 | in every reachable state a republish goes to a declared queue with the arguments the outcome calls for, so a publish with mandatory unset is never confirmed and dropped, and the lookup never indexes an empty list |
| RabbitSafety.InvKept | internal/infrastructure/messaging/rabbitmq_dispatch.go:19-51 | every step, faults included, keeps the invariant: tags, timing, queue order, declared queues, no loss |
| RabbitSafety.RunInv | internal/infrastructure/messaging/rabbitmq_consumer.go:112-163 | the invariant holds after every run, whatever queues earlier runs left behind |
| RabbitSafety.AttemptAndBodyKept | internal/infrastructure/messaging/rabbitmq_dispatch.go:24-35 | every copy keeps the body its message entered with, and its header reads as an attempt between the one it entered with and MaxAttempts |
| RabbitSafety.NewHeaderReadBack | internal/infrastructure/messaging/rabbitmq_dispatch.go:79-91 | the attempt written on a retry is attempt + 1, read back without overflow; a dead letter keeps its attempt |
| RabbitSafety.RabbitRefines | internal/infrastructure/messaging/rabbitmq_consumer.go:128-163 | every run is, step by step, a run of the delayed-retry machine |
| RabbitSafety.RabbitRetrySpacing | internal/infrastructure/messaging/rabbitmq_dispatch.go:24-27 | over whole runs a call of attempt n + 1 starts after the moment the outcome of a call of attempt n was applied plus Delay(n) less 1 ms, with the same body |
| RabbitSafety.RetryFollowsApply | internal/infrastructure/messaging/rabbitmq_topology.go:54-60 | in events: every delivery of a retry is preceded by the step that applied the outcome of the attempt before it, by more than its delay less 1 ms, the truncation of the TTL |
| RabbitSafety.TtlCoversDelay | internal/infrastructure/messaging/rabbitmq_topology.go:57 | the TTL in whole milliseconds falls short of the delay by less than 1 ms and never exceeds it |
| RabbitSafety.OrderKept | internal/infrastructure/messaging/rabbitmq_topology.go:54-64 | each retry queue stays ordered by arrival, hence by expiry, since all its messages share one TTL |
| RabbitOutcomes.TemporaryFailuresUseAllAttempts | internal/core/mailer/retry.go:39-42 | over any run with any faults, a message whose failure was accepted or that was dead-lettered was given up by some answer of the handler, and if that was for a temporary failure, then on attempt MaxAttempts (or the higher one it entered with), after calls on every attempt |
| RabbitRelease.ReleasedOnTime | internal/infrastructure/messaging/rabbitmq_topology.go:11-16 | whenever a message's TTL is over, expiring heads of its queue alone brings it back to the main queue at that very time: nothing ahead of it delays it |
| RabbitFaultFree.FaultFreeConservation | internal/core/mailer/service.go:43-117 | while nothing fails each message has at most one copy and is in exactly one place: pending, sent, accepted by its callback, or dead-lettered |
| RabbitFaultFree.OneCallPerAttemptInOrder | internal/core/mailer/service.go:91-117 | while nothing fails a message handled on attempt n was handled exactly once on each attempt up to n, at most MaxAttempts, in order of time, and at most one callback fired, in the call of its last attempt and with the final status |
| RabbitTermination.MeasureDrops | internal/infrastructure/messaging/rabbitmq_dispatch.go:19-51 | each working step of a fault-free run lowers a measure over queue positions and attempts left |
| RabbitTermination.WorkIsBounded | internal/core/mailer/retry.go:39-42 | a fault-free run makes at most 6 * MaxAttempts working steps for each message it took in, minus what is still to do |
| RabbitTermination.ZeroMeansSettled | internal/core/mailer/service.go:101-116 | when the measure is zero every message was sent, accepted or dead-lettered |
| RabbitTermination.EverythingSettles | internal/infrastructure/messaging/rabbitmq_consumer.go:146-162 | from every reachable fault-free state with a consumer, and for every sequence of answers of the transport and the endpoints, the messages that are in can be settled by going on without faults |
| RabbitTermination.MaximalRunSettles | internal/infrastructure/messaging/rabbitmq_consumer.go:146-162 | whatever the schedule and the answers, a fault-free run that cannot go on, now or after any wait, has settled every message |
| RabbitTermination.ScheduleIsBounded | internal/infrastructure/messaging/rabbitmq_consumer.go:146-162 | whatever the schedule and the answers, going on without faults and new messages makes at most as many working steps as the measure |
| RabbitConsumer.Consumer.PublishConfirmed | internal/infrastructure/messaging/rabbitmq_dispatch.go:53-77 | an error unless the broker confirmed; the copy the broker keeps in each case |
| RabbitConsumer.Consumer.Republish | internal/infrastructure/messaging/rabbitmq_dispatch.go:20-41 | the target and the header of a retry or a dead letter, published as the step Publish |
| RabbitConsumer.Consumer.Apply | internal/infrastructure/messaging/rabbitmq_dispatch.go:19-51 | publishes before it acks, and nacks with requeue when the publish is not confirmed: its effect on the broker is that of the Publish and Ack or Nack steps |
| RabbitConsumer.Consumer.HandleDelivery | internal/infrastructure/messaging/rabbitmq_consumer.go:155-160 | one delivery makes exactly the steps Deliver, Process and then Ack, or Publish with Ack or Nack as the publish was confirmed or not, and keeps the invariant |
| RabbitConsumer.Consumer.ConsumeLoop | internal/infrastructure/messaging/rabbitmq_consumer.go:146-162 | the delivery loop handles every delivery that can be handed out when its turn comes, in order, and does nothing else; the invariant is kept |
| KafkaSafety.StrictCommitsAreSafe | internal/infrastructure/messaging/kafka_consume.go:11-65 | over any run with rebalances, restarts, failed commits and cancellations, every record below a committed offset is resolved, provided a failed produce implies a cancelled context |
| KafkaSafety.LaxCommitsAreUnsafe | internal/infrastructure/messaging/kafka_dispatch.go:14-16 | without that hypothesis: a run in which a produce fails, the next poll goes on past the record, and a later commit passes it |
| KafkaSafety.CommitsSafeIffStrict | internal/infrastructure/messaging/kafka_dispatch.go:14-16 | commits are safe in every run exactly when a produce fails only under a cancelled context |
| KafkaSafety.PrefixResolved | internal/infrastructure/messaging/kafka_consume.go:42-65 | for a batch in any interleaving of partitions, everything up to each resolved record of it is resolved |
| KafkaProgress.OffsetsExact | internal/infrastructure/messaging/kafka_consume.go:34 | a commit has an offset for exactly the partitions of its records, and it is one past the highest of them |
| KafkaProgress.CommitCovers | internal/infrastructure/messaging/kafka_consume.go:33-37 | after a successful commit the committed offset of each partition of the resolved records is one past the highest of them, and the others are as before |
| KafkaProgress.CommittedStaysPast | internal/infrastructure/messaging/kafka_consume.go:33-37 | only a successful commit whose own records all lie before a record takes a committed offset back below it |
| KafkaProgress.CommittedNotPolledAgain | internal/infrastructure/messaging/kafka_consume.go:11-40 | over any run, a record covered by a successful commit is not polled again, through restarts, rebalances and failures, by the same member, a later one or one that had read past it, unless a member with an older position commits short of it |
| KafkaOutcomes.TemporaryFailuresUseAllAttempts | internal/core/mailer/retry.go:39-42 | over any run, a message whose failure was accepted or that was dead-lettered was given up by some answer of the handler, and if that was for a temporary failure, then on the last attempt, after calls on every attempt |
| KafkaNoLoss.StrictLosesNothing | internal/infrastructure/messaging/kafka_consume.go:11-65 | under the hypothesis each message was sent, or accepted by its callback, or a record with its body is dead-lettered or not yet committed past |
| KafkaNoLoss.NothingLostIffStrict | internal/infrastructure/messaging/kafka_dispatch.go:14-16 | no run loses a message exactly when a produce fails only under a cancelled context |
| KafkaNoLoss.KafkaRefines | internal/infrastructure/messaging/kafka_consume.go:42-65 | every run, with or without the hypothesis, is step by step a run of the delayed-retry machine |
| KafkaNoLoss.KafkaRetrySpacing | internal/infrastructure/messaging/kafka_dispatch.go:20-25 | over whole runs a call of attempt n + 1 starts after the moment the outcome of a call of attempt n was applied plus Delay(n) less 1 ms, with the same body |
| KafkaNoLoss.RetryFollowsApply | internal/infrastructure/messaging/kafka_consume.go:47-56 | in events: every call for a retry is preceded by the step that applied the outcome of the attempt before it, by more than its delay less 1 ms, the truncation of x-not-before |
| KafkaNoLoss.AttemptAndBodyKept | internal/infrastructure/messaging/kafka_dispatch.go:44-56 | every record of every topic keeps its message's body, and its header reads as an attempt between the one it entered with and MaxAttempts |
| KafkaBroker.RetryHeadersReadBack | internal/infrastructure/messaging/kafka_dispatch.go:20-25 | the attempt and the due time written on a retry are those read back |
| KafkaBroker.DeadLetterHeadersReadBack | internal/infrastructure/messaging/kafka_dispatch.go:26-32 | a dead letter keeps its attempt |
| KafkaBroker.AttemptFromHeader | internal/infrastructure/messaging/kafka_dispatch.go:49-56 | the attempt is the number in the first x-attempt header, at least 1; it is 1 without such a header |
| KafkaBroker.FindHeader | internal/infrastructure/messaging/kafka_dispatch.go:67-74 | the search loop returns the value of the first header with the key, or nothing when there is none |
| KafkaConsumer.KafkaSource.WaitUntilDue | internal/infrastructure/messaging/kafka_consume.go:67-82 | returns at once when due, false when the context is cancelled already or first, else true when the timer fires |
| KafkaConsumer.KafkaSource.OutFor | internal/infrastructure/messaging/kafka_dispatch.go:18-47 | the produced record: same value; for a retry the retry topic with x-attempt one higher and x-not-before the due time in milliseconds; for a dead letter the dead-letter topic with x-attempt only |
| KafkaConsumer.KafkaSource.Apply | internal/infrastructure/messaging/kafka_dispatch.go:14-42 | produces the retry or the dead letter; an error exactly when a produce was needed and failed |
| KafkaConsumer.KafkaSource.ProcessBatch | internal/infrastructure/messaging/kafka_consume.go:42-65 | resolves a prefix of the batch: each record is called once, and produced once unless the call ended it; it stops only where a produce failed or a wait was cancelled; it makes steps of the state machine only and ends by the batch bound |
| KafkaConsumer.KafkaSource.ConsumeBatch | internal/infrastructure/messaging/kafka_consume.go:17-39 | one turn of the loop from poll to commit, step by step: commits one past the highest resolved record of each partition, resolves the whole batch unless a produce fails or the context is cancelled, and ends by the batch bound, which from a reachable state is within the rebalance timeout of the poll |
| KafkaConsumer.Cluster.CommitRecords | internal/infrastructure/messaging/kafka_consume.go:34-38 | the committed offsets become one past the highest given offset of each partition, and the others stay |
| KafkaConsumer.MemberStaysSafe | internal/infrastructure/messaging/kafka_consume.go:11-40 | what a member does from a reachable state is part of a run: its commits are safe and nothing is lost |
| KafkaConsumer.LatestDueIsMax | internal/infrastructure/messaging/kafka_consume.go:47-56 | the due time in the batch bound is the largest of the batch, not a sum |
| KafkaConsumer.RunBoundsDues | internal/infrastructure/messaging/kafka_dispatch.go:20-25 | in every reachable state no task is due later than MaxDelay from now |
| KafkaConsumer.BatchFitsRebalance | internal/infrastructure/messaging/kafka_source.go:118-125 | in every reachable state the bound for a batch of any length is within RebalanceTimeout of now when handling and producing take at most the margin of a minute in all |
| RetryPolicies.RetryPolicy.ComputeDelay | internal/core/mailer/retry.go:18-24 | the doubling loop computes Delay, in at most ceil(log2(MaxDelay/BaseDelay)) rounds |
| RetryPolicies.DelayIsCappedDoublingIff | internal/core/mailer/retry.go:16-24 | Delay(n) == min(BaseDelay * 2^(n-1), MaxDelay) for every n exactly when the last doubling fits in an int64 |
| RetryPolicies.HalfRangeFits | internal/core/mailer/retry.go:16-24 | MaxDelay <= 2^62 ns is enough for that, and one nanosecond more is not: Delay(2) is then negative |
| RetryPolicies.DelayMonotone | internal/core/mailer/retry.go:16-24 | delays never shrink and lie in [BaseDelay, MaxDelay] |
| RetryPolicies.RoundsIsCeilLog | internal/core/mailer/retry.go:20-22 | the bound on the rounds is the ceiling of log2(MaxDelay/BaseDelay) |
| RetryPolicies.RetryPolicy.ComputeDelays | internal/core/mailer/retry.go:28-37 | the loop that compares neighbours only computes Delays |
| RetryPolicies.DelaysAreTheDistinctWaits | internal/core/mailer/retry.go:26-37 | Delays is strictly increasing and its elements are exactly Delay(a) for 1 <= a < MaxAttempts |
| RetryPolicies.TotalWaitBounds | internal/core/mailer/retry.go:16-24 | the scheduled wait before attempt n is at most BaseDelay * (2^(n-1) - 1) and at most (n - 1) * MaxDelay |
| RetryPolicies.Connect | internal/infrastructure/messaging/rabbitmq_consumer.go:50-66 | the reconnect loop, the same in both transports, waits Delay(k) of a policy with base 1 s and cap 30 s before its dial k + 1, that is min(2^(k-1), 30) seconds, and ends with the first success |
| Topologies.RetryQueueAgrees | internal/infrastructure/messaging/rabbitmq_topology.go:27-35 | every retry that is allowed picks the declared queue whose delay is exactly Delay(attempt), never the longest-queue fallback |
| Topologies.RetryQueueNeedsPositiveAttempt | internal/infrastructure/messaging/rabbitmq_dispatch.go:79-91 | there is no retry queue exactly when MaxAttempts is 1, while attempt 0 would still be retried: the clamp to 1 is needed |
| Topologies.RetryQueueIsNearest | internal/infrastructure/messaging/rabbitmq_topology.go:27-35 | for any delay the queue is the shortest that waits at least as long, or the longest if none does |
| Topologies.CompactDurationDeterminesTtl | internal/infrastructure/messaging/rabbitmq_topology.go:74-85 | a parser of compact durations recovers the whole milliseconds of every delay |
| Topologies.CompactDurationUnits | internal/infrastructure/messaging/rabbitmq_topology.go:74-85 | the unit is hours, minutes or seconds, the largest of which the delay is a whole number, or else milliseconds |
| Topologies.NameDeterminesTtl | internal/infrastructure/messaging/rabbitmq_topology.go:68-72 | equal retry-queue names mean equal x-message-ttl, across any two policies |
| Topologies.NamesAreDistinct | internal/infrastructure/messaging/rabbitmq_topology.go:23-25 | no retry queue is the main queue or the dead-letter queue |
| Topologies.DeclareNeverConflicts | internal/infrastructure/messaging/rabbitmq_topology.go:46-66 | declaring any topology of a queue after any others is never refused, keeps every queue and adds exactly its own |
| Topologies.PolicyChangesNeverConflict | internal/infrastructure/messaging/rabbitmq_topology.go:68-69 | any sequence of restarts with changed policies declares without conflict |
| Topologies.Registrar.Declare | internal/infrastructure/messaging/rabbitmq_topology.go:46-66 | the declaration loop declares the main queue, the dead-letter queue and one queue per delay, in order, up to the first refusal |
| Topologies.Topology.RetryQueues | internal/infrastructure/messaging/rabbitmq_topology.go:38-44 | the loop lists the name of every retry queue, in order |
| Delivery.Service.Deliver | internal/core/mailer/service.go:43-45 | outcome and calls made are those of an attempt that may be retried by the policy |
| Delivery.Service.DeliverOnce | internal/core/mailer/service.go:47-49 | one final attempt: never a retry |
| Delivery.Service.Send | internal/core/mailer/service.go:64-78 | an undecodable body is an error before any sender is called; the sender gets the decoded body and no callback |
| Delivery.Service.HandleFailed | internal/core/mailer/service.go:91-117 | retry, failure callback or dead letter, with the calls made |
| Delivery.AttemptMeaning | internal/core/mailer/service.go:64-78 | the code reported is that of the first fault of the request, or the transport's; the event names the request; a request whose body decodes is handed to the sender exactly once and first, as it came but for the decoded body and the callback |
| Delivery.TemporaryGivesUpLast | internal/core/mailer/retry.go:39-42 | a temporary failure is final only on the last attempt |
| Delivery.OnceIsLastAttempt | internal/core/mailer/service.go:47-49 | an attempt of a synchronous source is one on which no attempts are left |
| Utf8.BlankBytesIff | internal/infrastructure/mailer/content.go:31 | a decoded body counts as empty exactly when it is the UTF-8 encoding of white space |
| Delivery.ActionMeaning | internal/core/mailer/service.go:15-23 | retry exactly for a failure with one of the five temporary codes on an attempt below MaxAttempts, after Delay(attempt); done exactly when sent or when the failure callback accepted |
| Delivery.CallbacksMatchOutcome | internal/core/mailer/service.go:80-117 | no callback on a retry; on a final outcome exactly one, to the URL of the success or the failure target the message names, if that is not blank, with the event of the outcome; success and failure are never both notified |
| Recipients.CollectNonBlank | internal/core/model/recipients.go:15-23 | the loop of ParseRecipients and of the client's nonBlank keeps the trimmed non-blank items in order |
| Recipients.EachItem | internal/core/model/recipients.go:15-23 | each item counts for itself: white space is dropped, anything else kept without the white space around it |
| Recipients.ParseOfJoin | internal/core/model/recipients.go:38-40 | parsing a comma-join is concatenating the parses of the items |
| Recipients.ParsedEntries | internal/core/model/recipients.go:10-13 | every parsed entry is trimmed, non-blank and comma-free |
| Recipients.ParsedRoundTrip | internal/core/model/recipients.go:42-45 | parsing, showing and parsing again changes nothing, and so does the marshalled array |
| Recipients.WireRecipientsIff | client/email.go:128-136 | the wire form of a client's list decodes to it exactly when no kept entry contains a comma |
| ClientContract.Validate | client/email.go:50-69 | no field is missing exactly when sender, some recipient, subject and HTML are not blank |
| ClientContract.NamesOfMissing | client/email.go:50-69 | each of the four fields is named as missing exactly when it is blank |
| ClientContract.Prepare | client/email.go:71-80 | an incomplete email is refused; an id is filled in only when blank |
| ClientContract.PreparedKeeps | client/email.go:71-80 | an email is refused exactly when a required field is blank; otherwise every field is kept, and the id too unless it is blank |
| ClientContract.MarshalJson | client/email.go:103-126 | the wire record with its omitted members |
| ClientContract.WireShape | client/email.go:83-94 | which members are left out, null for no receivers, and base64 as the decoder of every attachment |
| ClientContract.WireContract | client/email.go:105-126 | the server reads back id, sender, subject, HTML bytes and callback; as many files, each with its name, bytes and type, application/octet-stream where it has none; and the recipient lists exactly when no kept entry contains a comma |
| ClientContract.BlamedOnlyForCommas | internal/core/mailer/service.go:64-78 | the server fails a prepared email with a message_* code exactly when every kept recipient is made of commas and spaces; never when none contains a comma |
| ClientContract.ClientToMessage | internal/infrastructure/mailer/smtp_message.go:15-51 | from the client's email to a reader of the text built: the HTML and each file's name, bytes and type come back, exactly when types hold no CRLF and names no CRLF, quote or backslash |
| ClientContract.ClientToInbox | internal/infrastructure/mailer/smtp_sender.go:61-76 | for header values, types and names without CR and LF, what arrives through the Data writer gives back the HTML and the files exactly when no name holds a quote or a backslash; without files, the HTML with bare LF turned into CRLF |
| Base64.EncodeRoundTrip | internal/infrastructure/mailer/smtp_message.go:55 | decoding an encoding gives the bytes back, with or without line breaks in between |
| Base64.EncodeConcat | internal/infrastructure/mailer/smtp_message.go:55 | groups of three bytes are encoded one after the other |
| Base64.EncodesGroup | internal/infrastructure/mailer/smtp_message.go:55 | three bytes become the four characters that stand for the same 24-bit number |
| Base64.EncodesLeftOver | internal/infrastructure/mailer/smtp_message.go:55 | one or two bytes left over are padded as RFC 4648 says |
| Base64.DecodesIff | internal/core/mailer/service.go:65-68 | a body decodes exactly when, but for CR and LF, it is alphabet characters and one or two of padding or none, a multiple of four in all |
| Multipart.DecodeAttachments | internal/infrastructure/mailer/content.go:56-72 | the decodable attachments in order |
| Multipart.EachAttachment | internal/infrastructure/mailer/content.go:42-72 | each attachment counts for itself: kept with name, type and bytes when it names no decoder but base64 and its data decode, else left out |
| Multipart.WriteBase64Lines | internal/infrastructure/mailer/smtp_message.go:53-62 | writes the encoding in lines of 76 characters and a blank line |
| Multipart.BuildMessage | internal/infrastructure/mailer/smtp_message.go:14-51 | writes the message the reader lemmas are about, line by line |
| MimeHeaders.HeaderRoundTrip | internal/infrastructure/mailer/smtp_message.go:18-24 | the header as a reader finds it: From, Subject and MIME-Version with their values, To and Cc parsing to the receivers and the carbon copies, no Cc when there are none, each field once and no others |
| MimeHeaders.HeaderArrives | internal/infrastructure/mailer/smtp_sender.go:61-76 | the same on arrival, for values, types and names without CR and LF |
| MimeHeaders.BoundaryCounts | internal/infrastructure/mailer/smtp_message.go:33 | the boundary ends in the number of body bytes and attachments |
| MimeRoundTrip.Base64LinesFit | internal/infrastructure/mailer/smtp_message.go:53-62 | the lines hold the whole encoding, none is blank, all are at most 76 characters of the alphabet, and all but the last exactly 76 |
| MimeRoundTrip.ContentLinesFit | internal/infrastructure/mailer/smtp_message.go:53-62 | the encoding ends with a blank line, and none of its lines can be taken for a delimiter, whatever the boundary |
| MimeRoundTrip.ContentRoundTrip | internal/infrastructure/mailer/smtp_message.go:53-62 | the content of a part decodes to the bytes it was written from |
| MimeRoundTrip.PlainRoundTrip | internal/infrastructure/mailer/smtp_message.go:26-31 | without attachments the HTML comes back unchanged, whatever it contains |
| MimeRoundTrip.MixedRoundTrip | internal/infrastructure/mailer/smtp_message.go:33-50 | a reader of section 5.1.1 of RFC 2046 gets back exactly the HTML and the attachments, in order, exactly when every type is free of CRLF and every name of CRLF, quotes and backslashes |
| MimeRoundTrip.DirtyPartDiffers | internal/infrastructure/mailer/smtp_message.go:41-47 | a part whose type or name is not clean is read back differently, or not at all |
| MimeRoundTrip.MessageRoundTrip | internal/infrastructure/mailer/smtp_message.go:14-51 | the same for the whole message, given header values without CRLF |
| MimeRoundTrip.MessageRelayed | internal/infrastructure/mailer/smtp_sender.go:61-76 | without CR and LF in header values, types and names a message with attachments passes the Data writer unchanged; without attachments the bare LF of the HTML become CRLF |
| MimeRoundTrip.ArrivalRoundTrip | internal/infrastructure/mailer/smtp_sender.go:61-76 | on arrival of such a message a reader gets the HTML and the attachments exactly when no name holds a quote or a backslash, or without attachments the HTML with bare LF turned into CRLF |
| TokenSource.Source.Token | internal/infrastructure/mailer/zoho_token_source.go:40-56 | serves the cache while it is fresh, else asks, and caches only what was granted |
| TokenSource.Source.Refresh | internal/infrastructure/mailer/zoho_token_source.go:65-86 | grants nothing on a transport error, an error field or an empty token |
| TokenSource.Source.Invalidate | internal/infrastructure/mailer/zoho_token_source.go:58-63 | drops the token and nothing else |
| TokenSource.ReturnsLastGranted | internal/infrastructure/mailer/zoho_token_source.go:40-56 | over any run a call returns an error exactly when it asks and is refused, and otherwise the token of the last call that was granted one: its own, or an earlier one within its lifetime |
| TokenSource.ServedIffLive | internal/infrastructure/mailer/zoho_token_source.go:43-46 | a call is served without asking exactly when an earlier call's token is neither invalidated nor past its lifetime |
| TokenSource.LifetimeExactIff | internal/infrastructure/mailer/zoho_token_source.go:54 | the lifetime is the announced one less the margin exactly when that fits in an int64 |
| TokenSource.UnexpiredIffWithinMargin | internal/infrastructure/mailer/zoho_token_source.go:14-15 | no call, in any run, returns from the cache a token the provider has expired exactly when refreshes take at most 60 s |
| TokenSource.RefreshesBounded | internal/infrastructure/mailer/zoho_token_source.go:39-56 | the provider is asked at most 1 + invalidations + expiries found + refused requests times |
| ClientSender.Sender.EnsureChannel | client/rabbitmq/sender.go:131-157 | keeps a usable channel, else resets and dials once, closing what it opened when the set-up fails |
| ClientSender.Sender.Send | client/rabbitmq/sender.go:57-81 | returns nil exactly when validated, connected and confirmed; otherwise resets |
| ClientSender.Sender.HealthCheck | client/rabbitmq/sender.go:83-97 | connects if needed, and resets when the queue is missing |
| ClientSender.Sender.Close | client/rabbitmq/sender.go:99-104 | resets |
| ClientSender.CallLeaves | client/rabbitmq/sender.go:59-169 | a call that fails past validation, and Close, leave no connection open and both fields nil; one that succeeds leaves a usable channel |
| ClientSender.SendsIff | client/rabbitmq/sender.go:57-81 | a send returns nil exactly when the email is complete, an open channel is held or opened, and the broker acknowledges |
| ClientSender.DialsOnlyWhenNeeded | client/rabbitmq/sender.go:131-157 | a usable channel is used as it is; otherwise one dial at most, and none for an incomplete email |
| ClientSender.MessageCarriesId | client/rabbitmq/sender.go:57-81 | the published id is the caller's, or the new one where that is blank, and the server reads it and the HTML from the body |
| ClientSender.SenderKeepsItsConnection | client/rabbitmq/sender.go:35-42 | over any calls and broker failures at most one connection is open, it is the one held with its channel, and the sends that returned nil are exactly the confirmed messages, ids and bodies, in order |

## Left out

- KafkaConsumer.KafkaSource.ConsumeBatch: one turn of the endless poll loop; fetch errors and the readiness flag are not part of it, and other members' steps are not interleaved inside it (KafkaSafety covers every interleaving).
- RabbitConsumer.Consumer.ConsumeLoop: one consumer at a time without a connection drop inside a delivery; RabbitSafety covers every interleaving and drop. Taking a delivery and starting its handler are one step.
- KafkaBroker.DeadLetterHeadersReadBack: the error code, cause and time headers of dead letters are not modelled, nor are record keys and which partition a record goes to (any partition is allowed).
- MimeRoundTrip.MessageRoundTrip: header values with CRLF are excluded; the body of the message is covered without that condition by MixedRoundTrip.
- MimeRoundTrip.ArrivalRoundTrip: types and names with CR or LF are excluded on arrival, and the CRLF that net/smtp adds to a text without a final line break is not modelled.
- TokenSource.UnexpiredIffWithinMargin: a token returned by the call that fetched it is not covered; the provider may issue one that has already expired.
- Fault-free conservation and termination are proved for RabbitMQ only; for Kafka the results are commit safety, no loss and refinement.
- The order of messages in the main queue: any ready message may be delivered next, which covers every order the broker keeps.
- Exactly-once delivery under faults: the design is at-least-once.
- JSON syntax (a message is a record, or malformed), UTF-8 encoding but for white space, RFC 2047 and RFC 5322 rendering of subject and display name.
- Network libraries, TLS and authentication: their calls end in every way that matters, as events or parameters.
- Provider request builders and error tables, HTTP handlers, health checks, configuration and wiring, UUIDs, logs, timestamps in events.
- Timeouts of publishes and dials: a timeout is one of the ways a call fails.
- Connections of the server-side consumer that are overwritten without being closed; connection safety is proved for the client's sender only.
- The group of goroutines in runner and KafkaSource.Run.
