/** The Kafka transport refines the delayed-retry machine and loses no message. */
module KafkaNoLoss {
  import opened Numbers
  import opened RetryPolicies
  import opened Topologies
  import opened Delivery
  import opened DelayedRetry
  import opened KafkaBroker
  import opened KafkaSafety

  /** The body and the headers of a record say what its task says. */
  ghost predicate RecordFits(l: Ledger, topic: Topic, record: Record) {
    && record.message == record.task.message && AttemptOf(record.headers) == record.task.attempt
    && record.task in l.scheduled
    && (topic.Main? ==> record.task.due <= l.now)
    && (topic.Retrying? ==> NotBefore(record.headers) == Some(record.task.due / MILLISECOND))
  }

  ghost predicate RecordsInv(s: State) {
    forall slot :: Exists(s, slot) ==> RecordFits(s.history, slot.at.topic, RecordAt(s, slot))
  }

  /** `out` continues the message of `record`: as a dead letter, or as the attempt after it. */
  ghost predicate Continues(p: RetryPolicy, record: Record, topic: Topic, out: Record) {
    && out.message == record.message && out.task.id == record.task.id
    && if topic.DeadLetters? then out.task == record.task
       else topic.Retrying? && p.CanRetry(record.task.attempt) && out.task.attempt == record.task.attempt + 1
  }

  ghost predicate HasBatch(s: State, member: Member, batch: seq<Slot>, done: nat) {
    done <= |batch| && forall i :: 0 <= i < |batch| ==> batch[i].at.topic == member.topic && Exists(s, batch[i])
  }

  ghost predicate StageFits(cfg: Config, s: State, member: Member) {
    match member.stage
    case Polling => true
    case Handling(batch, done) => HasBatch(s, member, batch, done)
    case Calling(batch, done) =>
      HasBatch(s, member, batch, done) && done < |batch| && Called(s.history, RecordAt(s, batch[done]).task)
    case Producing(batch, done, out, topic) =>
      && HasBatch(s, member, batch, done) && done < |batch| && Called(s.history, RecordAt(s, batch[done]).task)
      && RecordFits(s.history, topic, out) && Continues(cfg.policy, RecordAt(s, batch[done]), topic, out)
    case Committing(batch, done) => HasBatch(s, member, batch, done)
  }

  ghost predicate StagesInv(cfg: Config, s: State) {
    forall m :: m in s.members ==> !s.members[m].topic.DeadLetters? && StageFits(cfg, s, s.members[m])
  }

  /** What a resolved record's message became. */
  ghost predicate SettlementFits(cfg: Config, s: State, x: Settlement) {
    && Exists(s, x.slot)
    && var record := RecordAt(s, x.slot);
       match x.fate
       case Ended => record.task.id in s.history.sent || record.task.id in s.history.accepted
       case Moved(to) => Exists(s, to) && Continues(cfg.policy, record, to.at.topic, RecordAt(s, to))
  }

  ghost predicate SettledInv(cfg: Config, s: State) { forall x :: x in s.settled ==> SettlementFits(cfg, s, x) }

  predicate IsCopyOf(s: State, id: nat, slot: Slot) { Exists(s, slot) && RecordAt(s, slot).task.id == id }

  ghost predicate HasCopy(s: State, id: nat) { exists slot :: IsCopyOf(s, id, slot) }

  ghost predicate EntriesInv(s: State) { forall id: nat :: id < s.history.nextId ==> HasCopy(s, id) }

  ghost predicate Inv(cfg: Config, s: State) {
    && RecordsInv(s) && StagesInv(cfg, s) && SettledInv(cfg, s) && EntriesInv(s)
    && LedgerInv(cfg.policy, s.history) && ClockFits(s.history.now)
  }

  // ---------------------------------------------------------------- refinement

  /** Every step is a move of the delayed-retry machine: waiting until x-not-before, truncated to milliseconds, falls
      short of the due time by less than a millisecond. */
  lemma {:induction false} MoveAllowed(cfg: Config, s: State, e: Event)
    requires RecordsInv(s) && StagesInv(cfg, s) && Enabled(cfg, s, e)
    ensures Allowed(cfg.policy, s.history, MoveOf(cfg, s, e))
  {
  }

  // ---------------------------------------------------------------- the step, invariant by invariant

  /** Which steps let time pass. */
  lemma {:induction false} MoveKinds(cfg: Config, s: State, e: Event)
    requires Enabled(cfg, s, e)
    ensures MoveOf(cfg, s, e).Wait? <==> e.Elapse?
    ensures e.Elapse? ==> MoveOf(cfg, s, e).to == e.to
  {
  }

  lemma {:induction false} HistoryGrows(cfg: Config, s: State, e: Event)
    requires Enabled(cfg, s, e)
    ensures Grows(s.history, Do(cfg, s, e).history)
  {
    ApplyGrows(cfg.policy, s.history, MoveOf(cfg, s, e));
  }

  lemma {:induction false} ClockStaysFit(cfg: Config, s: State, e: Event)
    requires ClockFits(s.history.now) && Enabled(cfg, s, e)
    ensures ClockFits(Do(cfg, s, e).history.now)
  {
    MoveKinds(cfg, s, e);
    ApplyChanges(cfg.policy, s.history, MoveOf(cfg, s, e));
  }

  lemma {:induction false} RecordFitsStays(l: Ledger, l': Ledger, topic: Topic, record: Record)
    requires Grows(l, l') && RecordFits(l, topic, record)
    ensures RecordFits(l', topic, record)
  {
  }

  /** A record that a step adds is a published one, or the one a member was producing. */
  lemma {:induction false} NewRecord(cfg: Config, s: State, e: Event, slot: Slot)
    requires Enabled(cfg, s, e) && Exists(Do(cfg, s, e), slot) && !Exists(s, slot)
    ensures e.Publish? || e.Produce?
    ensures e.Publish? ==> slot.at.topic.Main?
    ensures e.Publish? ==>
      var task := Task(s.history.nextId, e.message, AttemptOf(e.headers), s.history.now);
      RecordAt(Do(cfg, s, e), slot) == Record(e.message, e.headers, task)
    ensures e.Produce? ==> slot.at.topic == s.members[e.m].stage.topic
    ensures e.Produce? ==> RecordAt(Do(cfg, s, e), slot) == s.members[e.m].stage.out
  {
  }

  lemma {:induction false} RecordsKept(cfg: Config, s: State, e: Event)
    requires RecordsInv(s) && StagesInv(cfg, s) && Enabled(cfg, s, e)
    ensures RecordsInv(Do(cfg, s, e))
  {
    var s' := Do(cfg, s, e);
    StepExtends(cfg, s, e);
    HistoryGrows(cfg, s, e);
    forall slot | Exists(s', slot)
      ensures RecordFits(s'.history, slot.at.topic, RecordAt(s', slot))
    {
      if Exists(s, slot) {
        ExistsStays(s, s', slot);
        RecordFitsStays(s.history, s'.history, slot.at.topic, RecordAt(s, slot));
      } else {
        NewRecord(cfg, s, e, slot);
        if e.Produce? {
          assert StageFits(cfg, s, s.members[e.m]);
          RecordFitsStays(s.history, s'.history, slot.at.topic, RecordAt(s', slot));
        }
      }
    }
  }

  lemma {:induction false} StageStays(cfg: Config, s: State, s': State, member: Member)
    requires LogsExtend(s, s') && Grows(s.history, s'.history) && StageFits(cfg, s, member)
    ensures StageFits(cfg, s', member)
  {
  }

  /** What a member decides to produce after the handler's answer continues the record and is due when the record
      says. */
  lemma {:induction false} OutFits(cfg: Config, l: Ledger, record: Record, outcome: Outcome)
    requires cfg.policy.Sound() && ClockFits(l.now) && !outcome.action.Done?
    requires RecordFits(l, Main, record) || RecordFits(l, Retrying, record)
    requires outcome.action.Retry? ==>
               cfg.policy.CanRetry(record.task.attempt) && outcome.retryIn == cfg.policy.Delay(record.task.attempt)
    ensures var (out, topic) := OutRecord(cfg, record, outcome, l.now);
            && Continues(cfg.policy, record, topic, out)
            && forall l': Ledger :: Grows(l, l') && out.task in l'.scheduled ==> RecordFits(l', topic, out)
  {
    var attempt := AttemptOf(record.headers);
    if outcome.action.Retry? {
      RetryHeadersReadBack(attempt, l.now + outcome.retryIn);
      DelayMonotone(cfg.policy, attempt, attempt);
      UnixMilliExact(l.now, outcome.retryIn);
    } else {
      DeadLetterHeadersReadBack(attempt);
    }
  }

  lemma {:induction false} AnswerOutcome(cfg: Config, s: State, m: nat, env: Env)
    requires Enabled(cfg, s, Answer(m, env))
    ensures var record := CurrentRecord(s, s.members[m].stage); var outcome := HandlerReport(cfg, record, env).outcome;
            var attempt := AttemptOf(record.headers);
            && (outcome.action.Retry? ==> cfg.policy.CanRetry(attempt) && outcome.retryIn == cfg.policy.Delay(attempt))
            && (outcome.action.Retry? ==> MoveOf(cfg, s, Answer(m, env)) == Again(record.task))
  {
  }

  lemma {:induction false} UnixMilliExact(now: int, d: int64)
    requires ClockFits(now) && 0 <= d
    ensures UnixMilli(now + d) == (now + d) / MILLISECOND
  {
  }

  lemma {:induction false} MemberStageMoves(cfg: Config, s: State, e: Event)
    requires cfg.policy.Sound() && Inv(cfg, s) && Enabled(cfg, s, e)
    requires !e.Publish? && !e.Elapse? && IsStepOf(e, e.m) && e.m in Do(cfg, s, e).members
    ensures StageFits(cfg, Do(cfg, s, e), Do(cfg, s, e).members[e.m])
  {
    var s' := Do(cfg, s, e);
    var member := s.members[e.m];
    StepExtends(cfg, s, e);
    HistoryGrows(cfg, s, e);
    assert StageFits(cfg, s, member);
    if e.Poll? {
      PollFits(cfg, s, e.m, e.batch, e.after);
    } else if e.Begin? {
      BeginFits(cfg, s, e.m);
    } else if e.Answer? {
      AnswerFits(cfg, s, e.m, e.env);
    } else {
      StageStays(cfg, s, s', member);
    }
  }

  lemma {:induction false} BeginFits(cfg: Config, s: State, m: nat)
    requires StagesInv(cfg, s) && Enabled(cfg, s, Begin(m))
    ensures StageFits(cfg, Do(cfg, s, Begin(m)), Do(cfg, s, Begin(m)).members[m])
  {
    var s' := Do(cfg, s, Begin(m));
    assert StageFits(cfg, s, s.members[m]);
    StepExtends(cfg, s, Begin(m));
    HistoryGrows(cfg, s, Begin(m));
    StageStays(cfg, s, s', s.members[m]);
    assert Call(CurrentRecord(s, s.members[m].stage).task, s.history.now) in s'.history.calls;
  }

  lemma {:induction false} PollFits(cfg: Config, s: State, m: nat, batch: seq<Slot>, after: map<nat, nat>)
    requires Enabled(cfg, s, Poll(m, batch, after))
    ensures StageFits(cfg, Do(cfg, s, Poll(m, batch, after)), Do(cfg, s, Poll(m, batch, after)).members[m])
  {
  }

  lemma {:induction false} AnswerFits(cfg: Config, s: State, m: nat, env: Env)
    requires cfg.policy.Sound() && Inv(cfg, s) && Enabled(cfg, s, Answer(m, env))
    ensures StageFits(cfg, Do(cfg, s, Answer(m, env)), Do(cfg, s, Answer(m, env)).members[m])
  {
    var s' := Do(cfg, s, Answer(m, env));
    assert StageFits(cfg, s, s.members[m]);
    StepExtends(cfg, s, Answer(m, env));
    HistoryGrows(cfg, s, Answer(m, env));
    StageStays(cfg, s, s', s.members[m]);
    var record := CurrentRecord(s, s.members[m].stage);
    var outcome := HandlerReport(cfg, record, env).outcome;
    assert RecordFits(s.history, s.members[m].topic, record);
    AnswerOutcome(cfg, s, m, env);
    if !outcome.action.Done? { OutFits(cfg, s.history, record, outcome); }
  }

  lemma {:induction false} StagesKept(cfg: Config, s: State, e: Event)
    requires cfg.policy.Sound() && Inv(cfg, s) && Enabled(cfg, s, e)
    ensures StagesInv(cfg, Do(cfg, s, e))
  {
    var s' := Do(cfg, s, e);
    StepExtends(cfg, s, e);
    HistoryGrows(cfg, s, e);
    forall m | m in s'.members
      ensures !s'.members[m].topic.DeadLetters? && StageFits(cfg, s', s'.members[m])
    {
      if IsStepOf(e, m) {
        MemberStageMoves(cfg, s, e);
      } else {
        OthersStand(cfg, s, e, m);
        if m in s.members { StageStays(cfg, s, s', s.members[m]); }
      }
    }
  }

  lemma {:induction false} SettlementStays(cfg: Config, s: State, s': State, x: Settlement)
    requires LogsExtend(s, s') && Grows(s.history, s'.history) && SettlementFits(cfg, s, x)
    ensures SettlementFits(cfg, s', x)
  {
  }

  lemma {:induction false} AnswerEnds(cfg: Config, s: State, m: nat, env: Env)
    requires Enabled(cfg, s, Answer(m, env))
    ensures var record := CurrentRecord(s, s.members[m].stage); var l := Do(cfg, s, Answer(m, env)).history;
            HandlerReport(cfg, record, env).outcome.action.Done?
            ==> record.task.id in l.sent || record.task.id in l.accepted
  {
  }

  lemma {:induction false} AnswerSettles(cfg: Config, s: State, m: nat, env: Env, x: Settlement)
    requires Enabled(cfg, s, Answer(m, env)) && x in Do(cfg, s, Answer(m, env)).settled && x !in s.settled
    ensures x == Settlement(s.members[m].stage.batch[s.members[m].stage.done], Ended)
    ensures HandlerReport(cfg, CurrentRecord(s, s.members[m].stage), env).outcome.action.Done?
    ensures Do(cfg, s, Answer(m, env)).logs == s.logs
  {
  }

  lemma {:induction false} ProduceSettles(cfg: Config, s: State, m: nat, p: nat, result: ProduceResult)
    requires Inv(cfg, s) && Enabled(cfg, s, Produce(m, p, result))
    ensures forall x :: x in Do(cfg, s, Produce(m, p, result)).settled && x !in s.settled ==>
              SettlementFits(cfg, Do(cfg, s, Produce(m, p, result)), x)
  {
  }

  lemma {:induction false} NewSettlement(cfg: Config, s: State, e: Event, x: Settlement)
    requires Inv(cfg, s) && Enabled(cfg, s, e) && x in Do(cfg, s, e).settled && x !in s.settled
    ensures SettlementFits(cfg, Do(cfg, s, e), x)
  {
    if e.Answer? {
      AnswerEnds(cfg, s, e.m, e.env);
      AnswerSettles(cfg, s, e.m, e.env, x);
    } else if e.Produce? {
      ProduceSettles(cfg, s, e.m, e.partition, e.result);
    }
  }

  lemma {:induction false} SettledKept(cfg: Config, s: State, e: Event)
    requires Inv(cfg, s) && Enabled(cfg, s, e)
    ensures SettledInv(cfg, Do(cfg, s, e))
  {
    StepExtends(cfg, s, e);
    HistoryGrows(cfg, s, e);
    forall x | x in Do(cfg, s, e).settled
      ensures SettlementFits(cfg, Do(cfg, s, e), x)
    {
      if x in s.settled { SettlementStays(cfg, s, Do(cfg, s, e), x); } else { NewSettlement(cfg, s, e, x); }
    }
  }

  lemma {:induction false} CopyStays(s: State, s': State, id: nat)
    requires LogsExtend(s, s') && HasCopy(s, id)
    ensures HasCopy(s', id)
  {
    var slot :| IsCopyOf(s, id, slot);
    ExistsStays(s, s', slot);
    assert IsCopyOf(s', id, slot);
  }

  lemma {:induction false} EntriesKept(cfg: Config, s: State, e: Event)
    requires EntriesInv(s) && Enabled(cfg, s, e)
    ensures EntriesInv(Do(cfg, s, e))
  {
    var s' := Do(cfg, s, e);
    StepExtends(cfg, s, e);
    forall id: nat | id < s'.history.nextId
      ensures HasCopy(s', id)
    {
      if id < s.history.nextId {
        CopyStays(s, s', id);
      } else {
        assert IsCopyOf(s', id, Slot(Partition(Main, e.partition), |Log(s, Partition(Main, e.partition))|));
      }
    }
  }

  // ---------------------------------------------------------------- whole runs

  lemma {:induction false} RunInv(cfg: Config, events: seq<Event>)
    requires cfg.policy.Sound() && Run(cfg, events).Some?
    ensures Inv(cfg, Run(cfg, events).value)
    decreases |events|
  {
    if |events| > 0 {
      var s, e := Run(cfg, events[..|events| - 1]).value, events[|events| - 1];
      RunInv(cfg, events[..|events| - 1]);
      RecordsKept(cfg, s, e);
      StagesKept(cfg, s, e);
      SettledKept(cfg, s, e);
      EntriesKept(cfg, s, e);
      ClockStaysFit(cfg, s, e);
      MoveAllowed(cfg, s, e);
      ApplyKeepsInv(cfg.policy, s.history, MoveOf(cfg, s, e));
    }
  }

  /** The moves a run makes on the delayed-retry machine. */
  ghost function Trace(cfg: Config, events: seq<Event>): seq<Move>
    requires Run(cfg, events).Some?
    decreases |events|
  {
    if |events| == 0 then []
    else
      var before := events[..|events| - 1];
      Trace(cfg, before) + [MoveOf(cfg, Run(cfg, before).value, events[|events| - 1])]
  }

  /** Every run is a run of the delayed-retry machine, step by step, with or without the hypothesis on produces. */
  lemma {:induction false} KafkaRefines(cfg: Config, events: seq<Event>)
    requires cfg.policy.Sound() && Run(cfg, events).Some?
    ensures |Trace(cfg, events)| == |events|
    ensures Replay(cfg.policy, Trace(cfg, events)) == Some(Run(cfg, events).value.history)
    decreases |events|
  {
    if |events| > 0 {
      var before := events[..|events| - 1];
      KafkaRefines(cfg, before);
      RunInv(cfg, before);
      MoveAllowed(cfg, Run(cfg, before).value, events[|events| - 1]);
      var trace := Trace(cfg, events);
      assert trace[..|trace| - 1] == Trace(cfg, before);
    }
  }

  /** A call of attempt n + 1 starts no earlier than the moment when the outcome of a call of attempt n was applied,
      plus Delay(n), less one millisecond; the body is the same. */
  lemma {:induction false} KafkaRetrySpacing(cfg: Config, events: seq<Event>, c: Call)
    returns (previous: Call, decidedAt: int)
    requires cfg.policy.Sound() && Run(cfg, events).Some?
    requires var l := Run(cfg, events).value.history;
             c in l.calls && c.task.id in l.origins && c.task != l.origins[c.task.id]
    ensures Follows(cfg.policy, Run(cfg, events).value.history, previous, decidedAt, c)
  {
    RunInv(cfg, events);
    previous, decidedAt := RetrySpacing(cfg.policy, Run(cfg, events).value.history, c);
  }

  lemma {:induction false} TracePrefix(cfg: Config, events: seq<Event>, i: nat)
    requires Run(cfg, events).Some? && i <= |events|
    ensures Run(cfg, events[..i]).Some? && |Trace(cfg, events)| == |events|
    ensures Trace(cfg, events)[..i] == Trace(cfg, events[..i])
    ensures i < |events| ==>
      && Enabled(cfg, Run(cfg, events[..i]).value, events[i])
      && Trace(cfg, events)[i] == MoveOf(cfg, Run(cfg, events[..i]).value, events[i])
    decreases |events|
  {
    if |events| > 0 {
      var before := events[..|events| - 1];
      TracePrefix(cfg, before, if i < |events| then i else i - 1);
    }
    if i < |events| {
      assert events[..|events| - 1][..i] == events[..i];
    } else {
      assert events[..i] == events;
    }
  }

  /** The record whose handler is called at step j is of a later attempt than its message's first. */
  ghost predicate BeginsRetry(cfg: Config, events: seq<Event>, j: nat)
    requires Run(cfg, events).Some? && j < |events|
  {
    && events[j].Begin? && Run(cfg, events[..j]).Some?
    && var s := Run(cfg, events[..j]).value;
       && events[j].m in s.members && Current(s, s.members[events[j].m].stage)
       && var task := CurrentRecord(s, s.members[events[j].m].stage).task;
          task.id in s.history.origins ==> task != s.history.origins[task.id]
  }

  /** Step e is where a handler's answer made the code retry `record`. */
  ghost predicate AppliesRetry(cfg: Config, s: State, e: Event, record: Record) {
    && e.Answer? && e.m in s.members && Current(s, s.members[e.m].stage)
    && CurrentRecord(s, s.members[e.m].stage) == record
    && HandlerReport(cfg, record, e.env).outcome.action.Retry?
  }

  /** Every call for a retry comes after the step that applied the outcome of the attempt before it, by at least the
      delay of that attempt less one millisecond, with the same body. */
  lemma {:induction false} RetryFollowsApply(cfg: Config, events: seq<Event>, j: nat) returns (i: nat, record: Record)
    requires cfg.policy.Sound() && Run(cfg, events).Some? && j < |events| && BeginsRetry(cfg, events, j)
    ensures i < j && Run(cfg, events[..i]).Some?
    ensures AppliesRetry(cfg, Run(cfg, events[..i]).value, events[i], record)
    ensures var s, s' := Run(cfg, events[..i]).value, Run(cfg, events[..j]).value;
            var task := CurrentRecord(s', s'.members[events[j].m].stage).task;
            && task.id == record.task.id && task.message == record.task.message
            && task.attempt == record.task.attempt + 1
            && s'.history.now > s.history.now + cfg.policy.Delay(record.task.attempt) - MILLISECOND
  {
    var moves := Trace(cfg, events);
    KafkaRefines(cfg, events);
    TracePrefix(cfg, events, j);
    KafkaRefines(cfg, events[..j]);
    i := StartFollowsDecision(cfg.policy, moves, j);
    TracePrefix(cfg, events, i);
    KafkaRefines(cfg, events[..i]);
    record := AgainIsAnswer(cfg, Run(cfg, events[..i]).value, events[i]);
  }

  lemma {:induction false} AgainIsAnswer(cfg: Config, s: State, e: Event) returns (record: Record)
    requires Enabled(cfg, s, e) && MoveOf(cfg, s, e).Again?
    ensures AppliesRetry(cfg, s, e, record) && MoveOf(cfg, s, e).task == record.task
  {
    record := CurrentRecord(s, s.members[e.m].stage);
  }

  /** Every record, in every topic, keeps the body its message entered with, and carries in its headers an attempt
      between the one it entered with and maxAttempts; for a message published without a header, between 1 and
      maxAttempts. */
  lemma {:induction false} AttemptAndBodyKept(cfg: Config, events: seq<Event>, slot: Slot)
    requires cfg.policy.Sound() && Run(cfg, events).Some? && Exists(Run(cfg, events).value, slot)
    ensures var s := Run(cfg, events).value; var record := RecordAt(s, slot);
            && record.task.id in s.history.origins
            && var origin := s.history.origins[record.task.id];
               && record.message == origin.message
               && 1 <= origin.attempt <= AttemptOf(record.headers) <= Max(origin.attempt, cfg.policy.maxAttempts)
  {
    RunInv(cfg, events);
    var s := Run(cfg, events).value;
    assert RecordFits(s.history, slot.at.topic, RecordAt(s, slot))
      && TaskFits(cfg.policy, s.history, RecordAt(s, slot).task);
  }

  // ---------------------------------------------------------------- no loss

  /** A record nobody has committed past, which the group will fetch (again), or one in the dead-letter topic. */
  predicate IsLive(s: State, slot: Slot) {
    Exists(s, slot) && (slot.at.topic.DeadLetters? || slot.offset >= Committed(s, slot.at))
  }

  /** The record is of message `id`, with the body it entered with. */
  ghost predicate CarriesMessage(s: State, id: nat, slot: Slot) {
    IsCopyOf(s, id, slot) && id in s.history.origins && RecordAt(s, slot).message == s.history.origins[id].message
  }

  ghost predicate Covered(s: State, id: nat) {
    id in s.history.sent || id in s.history.accepted || exists slot :: IsLive(s, slot) && CarriesMessage(s, id, slot)
  }

  lemma {:induction false} CopyCarries(cfg: Config, s: State, slot: Slot)
    requires Inv(cfg, s) && Exists(s, slot)
    ensures CarriesMessage(s, RecordAt(s, slot).task.id, slot)
  {
  }

  /** Following a message from record to record ends: each retry is on a later attempt. */
  lemma {:induction false} FollowMessage(cfg: Config, s: State, slot: Slot)
    requires Inv(cfg, s) && CommitInv(s) && Exists(s, slot)
    ensures Covered(s, RecordAt(s, slot).task.id)
    decreases cfg.policy.maxAttempts - RecordAt(s, slot).task.attempt
  {
    var id := RecordAt(s, slot).task.id;
    if slot.at.topic.DeadLetters? || slot.offset >= Committed(s, slot.at) {
      CopyCarries(cfg, s, slot);
      assert IsLive(s, slot);
    } else {
      assert AllBelow(s, slot.at, s.committed[slot.at]) && Resolved(s, slot);
      var fate :| Settlement(slot, fate) in s.settled;
      assert SettlementFits(cfg, s, Settlement(slot, fate));
      if fate.Moved? {
        if fate.to.at.topic.DeadLetters? {
          CopyCarries(cfg, s, fate.to);
          assert IsLive(s, fate.to);
        } else {
          FollowMessage(cfg, s, fate.to);
        }
      }
    }
  }

  /** Every message was sent, or its failure was accepted by its callback, or a record of it with its body is in the
      dead-letter topic or not yet committed past. */
  ghost predicate NothingLost(cfg: Config, events: seq<Event>)
    requires Run(cfg, events).Some?
  {
    var s := Run(cfg, events).value;
    forall id: nat :: id < s.history.nextId ==> Covered(s, id)
  }

  /** No message is ever lost, as long as produces fail only under a cancelled context. */
  lemma {:induction false} StrictLosesNothing(cfg: Config, events: seq<Event>)
    requires cfg.strict && cfg.policy.Sound() && Run(cfg, events).Some?
    ensures NothingLost(cfg, events)
  {
    var s := Run(cfg, events).value;
    RunInv(cfg, events);
    RunKeepsCommits(cfg, events);
    forall id: nat | id < s.history.nextId
      ensures Covered(s, id)
    {
      assert HasCopy(s, id);
      var slot :| IsCopyOf(s, id, slot);
      FollowMessage(cfg, s, slot);
    }
  }

  /** The hypothesis on produces is exactly what keeping every message takes, whatever else fails. */
  lemma {:induction false} NothingLostIffStrict(cfg: Config)
    requires cfg.policy.Sound()
    ensures (forall events :: Run(cfg, events).Some? ==> NothingLost(cfg, events)) <==> cfg.strict
  {
    if cfg.strict {
      forall events | Run(cfg, events).Some? ensures NothingLost(cfg, events) { StrictLosesNothing(cfg, events); }
    } else {
      var events := LaxCommitsAreUnsafe(cfg, Env(None, true));
      assert !Covered(Run(cfg, events).value, 0);
    }
  }
}
