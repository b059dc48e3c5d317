/** The Kafka transport as a state machine: internal/infrastructure/messaging/kafka_source.go, kafka_consume.go and
    kafka_dispatch.go, with failed produces and commits, rebalances, restarts and cancellation. */
module KafkaBroker {
  import opened Numbers
  import opened RetryPolicies
  import opened Topologies
  import opened Delivery
  import opened DelayedRetry

  // ---------------------------------------------------------------- record headers

  const ATTEMPT := "x-attempt"
  const NOT_BEFORE := "x-not-before"

  datatype RecordHeader = RecordHeader(key: string, value: string)

  /** kafkaHeader: the first header with the key, or nothing. */
  function HeaderValue(headers: seq<RecordHeader>, key: string): string {
    if |headers| == 0 then "" else if headers[0].key == key then headers[0].value else HeaderValue(headers[1..], key)
  }

  /** Header i is the first one with the key. */
  predicate FirstWith(headers: seq<RecordHeader>, key: string, i: nat) {
    i < |headers| && headers[i].key == key && forall j :: 0 <= j < i ==> headers[j].key != key
  }

  method FindHeader(headers: seq<RecordHeader>, key: string) returns (value: string)
    ensures value == HeaderValue(headers, key)
    ensures (exists i: nat :: FirstWith(headers, key, i) && headers[i].value == value)
            || (value == "" && forall i :: 0 <= i < |headers| ==> headers[i].key != key)
  {
    for i := 0 to |headers|
      invariant HeaderValue(headers[i..], key) == HeaderValue(headers, key)
      invariant forall j :: 0 <= j < i ==> headers[j].key != key
    {
      if headers[i].key == key {
        assert FirstWith(headers, key, i);
        return headers[i].value;
      }
    }
    value := "";
  }

  function AttemptOf(headers: seq<RecordHeader>): (n: int64)
    ensures n >= 1
  {
    match Atoi(HeaderValue(headers, ATTEMPT)) case None => 1 case Some(v) => Max(v, 1)
  }

  /** kafkaNotBefore in Unix milliseconds; None is the zero time, long past. */
  function NotBefore(headers: seq<RecordHeader>): Option<int64> { Atoi(HeaderValue(headers, NOT_BEFORE)) }

  /** time.Time.UnixMilli of a time in nanoseconds since 1970. */
  function UnixMilli(ns: int): int64 { Wrap64(ns / MILLISECOND) }

  function RetryHeaders(attempt: int64, due: int): seq<RecordHeader> {
    [RecordHeader(ATTEMPT, Itoa(Wrap64(attempt + 1))), RecordHeader(NOT_BEFORE, Itoa(UnixMilli(due)))]
  }

  /** The failure headers other than the attempt are not part of this model. */
  function DeadLetterHeaders(attempt: int64): seq<RecordHeader> { [RecordHeader(ATTEMPT, Itoa(attempt))] }

  /** The attempt is the number in the first such header, raised to 1; without such a header it is 1. */
  lemma {:induction false} AttemptFromHeader(before: seq<RecordHeader>, n: int64, rest: seq<RecordHeader>)
    requires forall i :: 0 <= i < |before| ==> before[i].key != ATTEMPT
    ensures AttemptOf(before) == 1
    ensures AttemptOf(before + [RecordHeader(ATTEMPT, Itoa(n))] + rest) == if n < 1 then 1 else n
  {
    AtoiItoa(n);
    SkipHeaders(before, [RecordHeader(ATTEMPT, Itoa(n))] + rest, ATTEMPT);
    SkipHeaders(before, [], ATTEMPT);
    assert before + [] == before;
    assert before + ([RecordHeader(ATTEMPT, Itoa(n))] + rest) == before + [RecordHeader(ATTEMPT, Itoa(n))] + rest;
  }

  lemma {:induction false} SkipHeaders(before: seq<RecordHeader>, rest: seq<RecordHeader>, key: string)
    requires forall i :: 0 <= i < |before| ==> before[i].key != key
    ensures HeaderValue(before + rest, key) == HeaderValue(rest, key)
  {
    if |before| == 0 {
      assert before + rest == rest;
    } else {
      assert (before + rest)[1..] == before[1..] + rest;
      SkipHeaders(before[1..], rest, key);
    }
  }

  /** The attempt and the due time written on a retry are the ones read back. */
  lemma {:induction false} RetryHeadersReadBack(attempt: int64, due: int)
    requires 1 <= attempt && attempt + 1 < TWO_63
    ensures AttemptOf(RetryHeaders(attempt, due)) == attempt + 1
    ensures NotBefore(RetryHeaders(attempt, due)) == Some(UnixMilli(due))
  {
    var headers := RetryHeaders(attempt, due);
    AtoiItoa(attempt + 1);
    AtoiItoa(UnixMilli(due));
    assert HeaderValue(headers, ATTEMPT) == Itoa(attempt + 1);
    assert ATTEMPT[2] == 'a' && NOT_BEFORE[2] == 'n';
    assert headers[1..][0] == RecordHeader(NOT_BEFORE, Itoa(UnixMilli(due)));
    assert HeaderValue(headers, NOT_BEFORE) == HeaderValue(headers[1..], NOT_BEFORE);
  }

  lemma {:induction false} DeadLetterHeadersReadBack(attempt: int64)
    requires 1 <= attempt
    ensures AttemptOf(DeadLetterHeaders(attempt)) == attempt
  {
    AtoiItoa(attempt);
    assert HeaderValue(DeadLetterHeaders(attempt), ATTEMPT) == Itoa(attempt);
  }

  // ---------------------------------------------------------------- state

  datatype Topic = Main | Retrying | DeadLetters

  datatype Partition = Partition(topic: Topic, number: nat)

  /** The place of a record: a partition and an offset in it. */
  datatype Slot = Slot(at: Partition, offset: nat)

  /** `task` is a history tag: no step of the code looks at it. */
  datatype Record = Record(message: Message, headers: seq<RecordHeader>, task: Task)

  /** What resolved a record: its message was sent or its failure accepted, or the record was copied to another
      topic. */
  datatype Fate = Ended | Moved(to: Slot)

  datatype Settlement = Settlement(slot: Slot, fate: Fate)

  /** How far a member is with the batch it polled; `done` records of it are resolved. */
  datatype Stage =
    | Polling
    | Handling(batch: seq<Slot>, done: nat)
    | Calling(batch: seq<Slot>, done: nat)
    | Producing(batch: seq<Slot>, done: nat, out: Record, topic: Topic)
    | Committing(batch: seq<Slot>, done: nat)

  /** A group member: its fetch positions by partition, and whether its context is cancelled. */
  datatype Member = Member(topic: Topic, position: map<nat, nat>, cancelled: bool, stage: Stage)

  datatype State = State(
    logs: map<Partition, seq<Record>>, committed: map<Partition, nat>, members: map<nat, Member>,
    settled: set<Settlement>, history: Ledger)

  /** `strict`: a produce fails only once the context is cancelled, as the comment on KafkaSource.apply assumes. */
  datatype Config = Config(policy: RetryPolicy, strict: bool)

  /** How ProduceSync ends; a failed produce may have reached the log. */
  datatype ProduceResult = Acked | Failed(appended: bool)

  datatype Event =
    | Publish(partition: nat, message: Message, headers: seq<RecordHeader>)
    | Elapse(to: int)
    | Join(m: nat, topic: Topic)
    | Assign(m: nat, partition: nat)
    | Revoke(m: nat, partition: nat)
    | Poll(m: nat, batch: seq<Slot>, after: map<nat, nat>)
    | Begin(m: nat)
    | GiveUp(m: nat)
    | Answer(m: nat, env: Env)
    | Produce(m: nat, partition: nat, result: ProduceResult)
    | EndBatch(m: nat)
    | Commit(m: nat, ok: bool)
    | Cancel(m: nat)
    | Leave(m: nat)

  const INIT := State(map[], map[], map[], {}, EMPTY)

  function Log(s: State, at: Partition): seq<Record> { if at in s.logs then s.logs[at] else [] }

  function Committed(s: State, at: Partition): nat { if at in s.committed then s.committed[at] else 0 }

  predicate Exists(s: State, slot: Slot) { slot.offset < |Log(s, slot.at)| }

  function RecordAt(s: State, slot: Slot): Record
    requires Exists(s, slot)
  {
    Log(s, slot.at)[slot.offset]
  }

  function Append(s: State, at: Partition, record: Record): map<Partition, seq<Record>> {
    s.logs[at := Log(s, at) + [record]]
  }

  // ---------------------------------------------------------------- polling and committing

  /** A poll hands out, for each partition, the records from the fetch position to the new one, in order;
      the partitions may interleave. */
  ghost predicate Fetches(s: State, member: Member, batch: seq<Slot>, after: map<nat, nat>) {
    && after.Keys == member.position.Keys
    && (forall p :: p in after ==> member.position[p] <= after[p] <= |Log(s, Partition(member.topic, p))|)
    && (forall i :: 0 <= i < |batch| ==>
          && batch[i].at.topic == member.topic && batch[i].at.number in after
          && member.position[batch[i].at.number] <= batch[i].offset < after[batch[i].at.number])
    && (forall p, o: nat :: p in after && member.position[p] <= o < after[p] ==>
           Slot(Partition(member.topic, p), o) in batch)
    && (forall i, o: nat :: 0 <= i < |batch| && member.position[batch[i].at.number] <= o < batch[i].offset ==>
          Slot(batch[i].at, o) in batch[..i])
    && (forall i, j :: 0 <= i < j < |batch| ==> batch[i] != batch[j])
  }

  /** The offsets CommitRecords commits: one past the last of the given records, by partition. */
  function OffsetsOf(slots: seq<Slot>): map<Partition, nat> {
    if |slots| == 0 then map[]
    else
      var before := OffsetsOf(slots[..|slots| - 1]);
      var last := slots[|slots| - 1];
      before[last.at := Max(if last.at in before then before[last.at] else 0, last.offset + 1)]
  }

  // ---------------------------------------------------------------- handling a record

  predicate Current(s: State, stage: Stage) {
    !stage.Polling? && stage.done < |stage.batch| && Exists(s, stage.batch[stage.done])
  }

  function CurrentRecord(s: State, stage: Stage): Record
    requires Current(s, stage)
  {
    RecordAt(s, stage.batch[stage.done])
  }

  /** waitUntilDue lets the record through; only members of the retry topic wait. */
  predicate Due(s: State, member: Member)
    requires Current(s, member.stage)
  {
    member.topic.Retrying? ==>
      match NotBefore(CurrentRecord(s, member.stage).headers)
      case None => true
      case Some(ms) => ms * MILLISECOND <= s.history.now
  }

  function HandlerReport(cfg: Config, record: Record, env: Env): Report {
    Handle(record.message, cfg.policy, AttemptOf(record.headers), env)
  }

  /** The record `apply` produces for a retry or a dead letter, and its topic. */
  function OutRecord(cfg: Config, record: Record, outcome: Outcome, now: int): (Record, Topic) {
    if outcome.action.Retry?
    then
      var headers := RetryHeaders(AttemptOf(record.headers), now + outcome.retryIn);
      (Record(record.message, headers, Successor(cfg.policy, record.task, now)), Retrying)
    else (Record(record.message, DeadLetterHeaders(AttemptOf(record.headers)), record.task), DeadLetters)
  }

  /** The clock stays within what UnixMilli can represent, the year 292 million. */
  predicate ClockFits(now: int) { 0 <= now && now + TWO_63 < TWO_63 * MILLISECOND }

  ghost predicate Enabled(cfg: Config, s: State, e: Event) {
    match e
    case Publish(_, _, _) => true
    case Elapse(to) => s.history.now <= to && ClockFits(to)
    case Join(m, topic) => m !in s.members && !topic.DeadLetters?
    case Assign(m, _) => m in s.members && s.members[m].stage.Polling?
    case Revoke(m, _) => m in s.members && s.members[m].stage.Polling?
    case Poll(m, batch, after) =>
      m in s.members && s.members[m].stage.Polling? && !s.members[m].cancelled && Fetches(s, s.members[m], batch, after)
    case Begin(m) =>
      m in s.members && s.members[m].stage.Handling? && Current(s, s.members[m].stage) && Due(s, s.members[m])
    case GiveUp(m) =>
      && m in s.members && s.members[m].stage.Handling? && Current(s, s.members[m].stage)
      && !Due(s, s.members[m]) && s.members[m].cancelled
    case Answer(m, _) => m in s.members && s.members[m].stage.Calling? && Current(s, s.members[m].stage)
    case Produce(m, _, result) =>
      && m in s.members && s.members[m].stage.Producing? && Current(s, s.members[m].stage)
      && (result.Failed? && cfg.strict ==> s.members[m].cancelled)
    case EndBatch(m) =>
      m in s.members && s.members[m].stage.Handling? && s.members[m].stage.done == |s.members[m].stage.batch|
    case Commit(m, _) =>
      m in s.members && s.members[m].stage.Committing? && s.members[m].stage.done <= |s.members[m].stage.batch|
    case Cancel(m) => m in s.members
    case Leave(m) => m in s.members
  }

  /** What the step means to the delayed-retry machine. */
  ghost function MoveOf(cfg: Config, s: State, e: Event): Move
    requires Enabled(cfg, s, e)
  {
    match e
    case Publish(_, message, headers) => Submit(message, AttemptOf(headers))
    case Elapse(to) => Wait(to)
    case Begin(m) => Start(CurrentRecord(s, s.members[m].stage).task)
    case Answer(m, env) =>
      var record := CurrentRecord(s, s.members[m].stage);
      var report := HandlerReport(cfg, record, env);
      if report.IsSent() then Finish(record.task, EndSent)
      else if report.IsAccepted() then Finish(record.task, EndAccepted)
      else if report.outcome.action.Retry? then Again(record.task)
      else Stutter
    case Produce(m, _, result) =>
      var stage := s.members[m].stage;
      if stage.topic.DeadLetters? && (result.Acked? || result.appended)
        then Finish(stage.out.task, EndDead)
        else Stutter
    case _ => Stutter
  }

  function SetStage(s: State, m: nat, stage: Stage): State
    requires m in s.members
  {
    s.(members := s.members[m := s.members[m].(stage := stage)])
  }

  function AfterAnswer(cfg: Config, s: State, m: nat, env: Env): State
    requires m in s.members && s.members[m].stage.Calling? && Current(s, s.members[m].stage)
  {
    var Calling(batch, done) := s.members[m].stage;
    var record := CurrentRecord(s, s.members[m].stage);
    var outcome := HandlerReport(cfg, record, env).outcome;
    if outcome.action.Done? then
      SetStage(s, m, Handling(batch, done + 1)).(settled := s.settled + {Settlement(batch[done], Ended)})
    else
      var (out, topic) := OutRecord(cfg, record, outcome, s.history.now);
      SetStage(s, m, Producing(batch, done, out, topic))
  }

  function AfterProduce(s: State, m: nat, partition: nat, result: ProduceResult): State
    requires m in s.members && s.members[m].stage.Producing? && Current(s, s.members[m].stage)
  {
    var Producing(batch, done, out, topic) := s.members[m].stage;
    var at := Partition(topic, partition);
    match result
    case Acked =>
      SetStage(s, m, Handling(batch, done + 1)).(
        logs := Append(s, at, out), settled := s.settled + {Settlement(batch[done], Moved(Slot(at, |Log(s, at)|)))})
    case Failed(appended) =>
      SetStage(s, m, Committing(batch, done)).(logs := if appended then Append(s, at, out) else s.logs)
  }

  /** The brokers and the members after the step, apart from the ledger. */
  ghost function Effects(cfg: Config, s: State, e: Event): State
    requires Enabled(cfg, s, e)
  {
    match e
    case Publish(p, message, headers) =>
      var task := Task(s.history.nextId, message, AttemptOf(headers), s.history.now);
      s.(logs := Append(s, Partition(Main, p), Record(message, headers, task)))
    case Elapse(_) => s
    case Join(m, topic) => s.(members := s.members[m := Member(topic, map[], false, Polling)])
    case Assign(m, p) =>
      var member := s.members[m];
      s.(members := s.members[m := member.(position := member.position[p := Committed(s, Partition(member.topic, p))])])
    case Revoke(m, p) =>
      var member := s.members[m];
      s.(members := s.members[m := member.(position := member.position - {p})])
    case Poll(m, batch, after) =>
      s.(members := s.members[m := s.members[m].(position := after, stage := Handling(batch, 0))])
    case Begin(m) => SetStage(s, m, Calling(s.members[m].stage.batch, s.members[m].stage.done))
    case GiveUp(m) => SetStage(s, m, Committing(s.members[m].stage.batch, s.members[m].stage.done))
    case Answer(m, env) => AfterAnswer(cfg, s, m, env)
    case Produce(m, p, result) => AfterProduce(s, m, p, result)
    case EndBatch(m) => SetStage(s, m, Committing(s.members[m].stage.batch, s.members[m].stage.done))
    case Commit(m, ok) =>
      var stage := s.members[m].stage;
      var s' := SetStage(s, m, Polling);
      if ok then s'.(committed := s.committed + OffsetsOf(stage.batch[..stage.done])) else s'
    case Cancel(m) => s.(members := s.members[m := s.members[m].(cancelled := true)])
    case Leave(m) => s.(members := s.members - {m})
  }

  ghost function Do(cfg: Config, s: State, e: Event): State
    requires Enabled(cfg, s, e)
  {
    Effects(cfg, s, e).(history := Apply(cfg.policy, s.history, MoveOf(cfg, s, e)))
  }

  /** The state after a run, if every event is possible when it happens. */
  ghost function Run(cfg: Config, events: seq<Event>): Option<State>
    decreases |events|
  {
    if |events| == 0 then Some(INIT)
    else match Run(cfg, events[..|events| - 1])
      case None => None
      case Some(s) => if Enabled(cfg, s, events[|events| - 1]) then Some(Do(cfg, s, events[|events| - 1])) else None
  }

  /** The state after more events. */
  ghost function Continue(cfg: Config, s: State, events: seq<Event>): Option<State>
    decreases |events|
  {
    if |events| == 0 then Some(s)
    else match Continue(cfg, s, events[..|events| - 1])
      case None => None
      case Some(t) => if Enabled(cfg, t, events[|events| - 1]) then Some(Do(cfg, t, events[|events| - 1])) else None
  }

  /** What a member does from a reachable state is part of a run. */
  lemma {:induction false} RunThenContinue(cfg: Config, before: seq<Event>, events: seq<Event>)
    requires Run(cfg, before).Some? && Continue(cfg, Run(cfg, before).value, events).Some?
    ensures Run(cfg, before + events) == Continue(cfg, Run(cfg, before).value, events)
    decreases |events|
  {
    var all := before + events;
    if |events| == 0 {
      assert all == before;
    } else {
      RunThenContinue(cfg, before, events[..|events| - 1]);
      assert all[..|all| - 1] == before + events[..|events| - 1];
    }
  }
}
