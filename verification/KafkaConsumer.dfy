/** The code of one Kafka member, internal/infrastructure/messaging/kafka_consume.go and kafka_dispatch.go, proved to
    make the steps of KafkaBroker, with a bound on how long a batch takes. */
module KafkaConsumer {
  import opened Numbers
  import opened RetryPolicies
  import opened Topologies
  import opened Delivery
  import opened DelayedRetry
  import opened KafkaBroker
  import opened KafkaSafety
  import opened KafkaNoLoss
  import opened KafkaProgress

  /** What one record of a batch meets. While waiting for its due time the context may be cancelled after `cancelAfter`;
      `late` is how late the timer fires; `handling` and `producing` are the times the handler and the produce take.
      `cancels`: the context is cancelled during the produce. */
  datatype Turn = Turn(
    cancelAfter: Option<nat>, late: nat, handling: nat, env: Env, producing: nat, cancels: bool, partition: nat,
    result: ProduceResult)
  {
    function Cost(): nat { late + handling + producing }

    /** The hypothesis of KafkaSource.apply's comment. */
    predicate Honest(cfg: Config) { cfg.strict && result.Failed? ==> cancels }

    /** The context is not cancelled. */
    predicate Calm() { cancelAfter.None? && !cancels }
  }

  // ---------------------------------------------------------------- time

  /** When a record of the retry topic may be handled, in nanoseconds. */
  function DueNs(waitDue: bool, record: Record): int {
    if waitDue then match NotBefore(record.headers) case None => 0 case Some(ms) => ms * MILLISECOND else 0
  }

  /** The latest due time of the first n records. */
  function LatestDue(waitDue: bool, records: seq<Record>, n: nat): int
    requires n <= |records|
  {
    if n == 0 then 0 else Max(LatestDue(waitDue, records, n - 1), DueNs(waitDue, records[n - 1]))
  }

  /** LatestDue is the largest due time, or 0 where no record has to wait. */
  lemma {:induction false} LatestDueIsMax(waitDue: bool, records: seq<Record>, n: nat)
    requires n <= |records|
    ensures forall i :: 0 <= i < n ==> DueNs(waitDue, records[i]) <= LatestDue(waitDue, records, n)
    ensures var due := LatestDue(waitDue, records, n);
            due == 0 || exists i :: 0 <= i < n && DueNs(waitDue, records[i]) == due
  {
    if n > 0 { LatestDueIsMax(waitDue, records, n - 1); }
  }

  /** What the first n turns take, apart from waiting. */
  function TotalCost(turns: seq<Turn>, n: nat): nat
    requires n <= |turns|
  {
    if n == 0 then 0 else TotalCost(turns, n - 1) + turns[n - 1].Cost()
  }

  /** When the first n records of a batch polled at `start` are done with at the latest: the waits overlap, only the
      handling and the producing add up. */
  function FinishBound(waitDue: bool, records: seq<Record>, turns: seq<Turn>, start: int, n: nat): int
    requires n <= |records| && n <= |turns|
  {
    Max(start, LatestDue(waitDue, records, n)) + TotalCost(turns, n)
  }

  /** The bounds for 0, 1, ... records. */
  predicate AreBounds(waitDue: bool, records: seq<Record>, turns: seq<Turn>, start: int, bounds: seq<int>) {
    && |bounds| == |records| + 1 == |turns| + 1 && start <= bounds[0]
    && forall n: nat {:trigger FinishBound(waitDue, records, turns, start, n)} :: n <= |records| ==>
         bounds[n] == FinishBound(waitDue, records, turns, start, n)
  }

  function Bounds(waitDue: bool, records: seq<Record>, turns: seq<Turn>, start: int): (bounds: seq<int>)
    requires |records| == |turns|
    ensures AreBounds(waitDue, records, turns, start, bounds)
  {
    seq(|records| + 1, n requires 0 <= n <= |records| => FinishBound(waitDue, records, turns, start, n))
  }

  lemma {:induction false} BoundGrows(waitDue: bool, records: seq<Record>, turns: seq<Turn>, start: int, i: nat, n: nat)
    requires i <= n <= |records| && n <= |turns|
    ensures FinishBound(waitDue, records, turns, start, i) <= FinishBound(waitDue, records, turns, start, n)
    decreases n
  {
    if i < n { BoundGrows(waitDue, records, turns, start, i, n - 1); }
  }

  /** A turn that starts within the bound ends within the next one. */
  lemma {:induction false} TurnWithinBound(waitDue: bool, records: seq<Record>, turns: seq<Turn>, start: int, i: nat,
      now: int)
    requires |turns| == |records| && i < |records| && 0 <= now <= FinishBound(waitDue, records, turns, start, i)
    requires ClockFits(FinishBound(waitDue, records, turns, start, |records|))
    ensures var done := Max(now, DueNs(waitDue, records[i])) + turns[i].Cost();
            ClockFits(done) && done <= FinishBound(waitDue, records, turns, start, i + 1)
  {
    BoundGrows(waitDue, records, turns, start, i + 1, |records|);
  }

  /** newConsumer: the group tolerates this much time between polls. */
  function RebalanceTimeout(p: RetryPolicy): int64 { Wrap64(p.maxDelay + MINUTE) }

  /** No task is scheduled later than maxDelay from now. */
  ghost predicate DuesBounded(p: RetryPolicy, l: Ledger) {
    forall t :: t in l.scheduled ==> t.due <= l.now + p.maxDelay
  }

  lemma {:induction false} RunBoundsDues(cfg: Config, events: seq<Event>)
    requires cfg.policy.Sound() && Run(cfg, events).Some?
    ensures DuesBounded(cfg.policy, Run(cfg, events).value.history)
    decreases |events|
  {
    if |events| > 0 {
      var before := events[..|events| - 1];
      RunBoundsDues(cfg, before);
      RunInv(cfg, before);
      MoveAllowed(cfg, Run(cfg, before).value, events[|events| - 1]);
      MoveBoundsDues(cfg.policy, Run(cfg, before).value.history,
        MoveOf(cfg, Run(cfg, before).value, events[|events| - 1]));
    }
  }

  lemma {:induction false} MoveBoundsDues(p: RetryPolicy, l: Ledger, m: Move)
    requires p.Sound() && DuesBounded(p, l) && Allowed(p, l, m)
    ensures DuesBounded(p, Apply(p, l, m))
  {
  }

  /** The handling and producing of the turns take at most the one-minute margin in all, and the timeout does not
      overflow. */
  ghost predicate WithinMargin(cfg: Config, turns: seq<Turn>) {
    cfg.policy.Sound() && cfg.policy.maxDelay + MINUTE < TWO_63 && TotalCost(turns, |turns|) <= MINUTE
  }

  /** Whatever has happened before, a batch of any length polled now is left within the rebalance timeout, provided its
      handling and producing take at most the one-minute margin in all. */
  lemma {:induction false} BatchFitsRebalance(cfg: Config, events: seq<Event>, batch: seq<Slot>, records: seq<Record>,
      turns: seq<Turn>, waitDue: bool)
    requires WithinMargin(cfg, turns) && Run(cfg, events).Some? && |batch| == |records| == |turns|
    requires var s := Run(cfg, events).value; forall i :: 0 <= i < |batch| ==>
               Holds(s, batch[i], records[i]) && (waitDue ==> batch[i].at.topic.Retrying?)
    ensures FinishBound(waitDue, records, turns, Run(cfg, events).value.history.now, |records|)
              <= Run(cfg, events).value.history.now + RebalanceTimeout(cfg.policy)
  {
    var s := Run(cfg, events).value;
    RunInv(cfg, events);
    RunBoundsDues(cfg, events);
    LatestDueIsMax(waitDue, records, |records|);
    forall i | 0 <= i < |records| ensures DueNs(waitDue, records[i]) <= s.history.now + cfg.policy.maxDelay {
      assert RecordFits(s.history, batch[i].at.topic, RecordAt(s, batch[i]));
    }
  }

  ghost predicate Reached(cfg: Config, run: seq<Event>, s: State) { Run(cfg, run) == Some(s) }

  lemma {:induction false} ReachedFits(cfg: Config, run: seq<Event>, s: State, batch: seq<Slot>, records: seq<Record>,
      turns: seq<Turn>, member: Member, after: map<nat, nat>)
    requires BatchGiven(cfg, s, batch, records, turns) && Fetches(s, member, batch, after)
    ensures var waitDue := member.topic.Retrying?;
            Reached(cfg, run, s) && WithinMargin(cfg, turns) ==>
              FinishBound(waitDue, records, turns, s.history.now, |records|)
              <= s.history.now + RebalanceTimeout(cfg.policy)
  {
    if Reached(cfg, run, s) && WithinMargin(cfg, turns) {
      BatchFitsRebalance(cfg, run, batch, records, turns, member.topic.Retrying?);
    }
  }

  // ---------------------------------------------------------------- the work of a turn

  predicate Passes(e: Event) { e.Elapse? || e.Cancel? }

  /** The steps the code takes itself: neither time passing nor its context being cancelled. */
  function Work(events: seq<Event>): Steps
    decreases |events|
  {
    if |events| == 0 then Idle
    else if Passes(events[|events| - 1]) then Work(events[..|events| - 1])
    else Then(Work(events[..|events| - 1]), events[|events| - 1])
  }

  function Answered(cfg: Config, record: Record, turn: Turn): Outcome { HandlerReport(cfg, record, turn.env).outcome }

  /** What the handler answers for each record. */
  function Answers(cfg: Config, records: seq<Record>, turns: seq<Turn>): (answers: seq<Outcome>)
    requires |records| == |turns|
    ensures AreAnswers(cfg, records, turns, answers)
  {
    seq(|records|, i requires 0 <= i < |records| => Answered(cfg, records[i], turns[i]))
  }

  predicate AreAnswers(cfg: Config, records: seq<Record>, turns: seq<Turn>, answers: seq<Outcome>) {
    && |answers| == |records| == |turns|
    && forall i {:trigger Answered(cfg, records[i], turns[i])} :: 0 <= i < |turns| ==>
         answers[i] == Answered(cfg, records[i], turns[i])
  }

  /** The record needs a retry or a dead letter, and the produce fails. */
  predicate Fails(answer: Outcome, turn: Turn) { !answer.action.Done? && turn.result.Failed? }

  /** The steps of the code, latest first. */
  datatype Steps = Idle | Then(before: Steps, last: Event)

  /** Handling a record, after the steps `begun`: the call and, unless that ended it, one produce. */
  function RecordWork(me: nat, answer: Outcome, turn: Turn, begun: Steps): Steps {
    var called := Then(Then(begun, Begin(me)), Answer(me, turn.env));
    if answer.action.Done? then called else Then(called, Event.Produce(me, turn.partition, turn.result))
  }

  function BatchWork(me: nat, answers: seq<Outcome>, turns: seq<Turn>, n: nat, begun: Steps): Steps
    requires n <= |answers| == |turns|
  {
    if n == 0 then begun
    else RecordWork(me, answers[n - 1], turns[n - 1], BatchWork(me, answers, turns, n - 1, begun))
  }

  /** The work on a batch of which k records were resolved, none of which failed: all k are handled and then, once the
      batch has `stopped`, the wait for the next record was given up, or that one failed. */
  ghost predicate Worked(me: nat, answers: seq<Outcome>, turns: seq<Turn>, k: nat, stopped: bool, cancelled: bool,
      begun: Steps, work: Steps)
    requires k <= |answers| == |turns|
  {
    && (forall i :: 0 <= i < k ==> !Fails(answers[i], turns[i]))
    && if !stopped then work == BatchWork(me, answers, turns, k, begun)
       else
         && k < |turns|
         && (|| (cancelled && work == Then(BatchWork(me, answers, turns, k, begun), GiveUp(me)))
             || (Fails(answers[k], turns[k]) && work == BatchWork(me, answers, turns, k + 1, begun)))
  }

  /** One more record was handled, or the wait for it was given up. */
  predicate HandledOne(me: nat, answer: Outcome, turn: Turn, ok: bool, cancelled: bool, begun: Steps,
      work: Steps) {
    || (work == RecordWork(me, answer, turn, begun) && (ok <==> !Fails(answer, turn)))
    || (work == Then(begun, GiveUp(me)) && !ok && cancelled)
  }

  lemma {:induction false} WorkGrows(me: nat, answers: seq<Outcome>, turns: seq<Turn>, k: nat, ok: bool,
      before: bool, cancelled: bool, begun: Steps, work: Steps, work': Steps)
    requires k < |answers| == |turns| && Worked(me, answers, turns, k, false, before, begun, work)
    requires HandledOne(me, answers[k], turns[k], ok, cancelled, work, work')
    ensures Worked(me, answers, turns, if ok then k + 1 else k, !ok, cancelled, begun, work')
  {
  }

  /** The end of a turn of consume. */
  function EndWork(me: nat, whole: bool, commitOk: bool, work: Steps): Steps {
    Then(if whole then Then(work, EndBatch(me)) else work, Event.Commit(me, commitOk))
  }

  /** The whole work of a turn of consume that resolves k records: the poll, the batch as above, and one commit. */
  ghost predicate TurnWorked(me: nat, answers: seq<Outcome>, turns: seq<Turn>, k: nat, cancelled: bool, poll: Event,
      commitOk: bool, work: Steps)
    requires k <= |answers| == |turns|
  {
    && (forall i :: 0 <= i < k ==> !Fails(answers[i], turns[i]))
    && if k == |turns| then work == EndWork(me, true, commitOk, BatchWork(me, answers, turns, k, Then(Idle, poll)))
       else
         || (cancelled
             && work
                == EndWork(me, false, commitOk, Then(BatchWork(me, answers, turns, k, Then(Idle, poll)), GiveUp(me))))
         || (Fails(answers[k], turns[k])
             && work == EndWork(me, false, commitOk, BatchWork(me, answers, turns, k + 1, Then(Idle, poll))))
  }

  lemma {:induction false} TurnEnds(me: nat, answers: seq<Outcome>, turns: seq<Turn>, k: nat, cancelled: bool,
      poll: Event, commitOk: bool, middle: Steps)
    requires k <= |answers| == |turns|
    requires Worked(me, answers, turns, k, k < |turns|, cancelled, Then(Idle, poll), middle)
    ensures TurnWorked(me, answers, turns, k, cancelled, poll, commitOk, EndWork(me, k == |turns|, commitOk, middle))
    ensures !cancelled && NoneFails(answers, turns) ==> k == |turns|
  {
  }

  predicate NoneFails(answers: seq<Outcome>, turns: seq<Turn>)
    requires |answers| == |turns|
  {
    forall i :: 0 <= i < |turns| ==> !Fails(answers[i], turns[i])
  }

  /** After i records of the batch, the resolved ones are all of them, or fewer once it has stopped. */
  predicate Reaches(batch: seq<Slot>, resolved: seq<Slot>, stopped: bool, i: nat) {
    resolved <= batch && if stopped then |resolved| < i else |resolved| == i
  }

  predicate AllCalm(turns: seq<Turn>) { forall i :: 0 <= i < |turns| ==> turns[i].Calm() }

  // ---------------------------------------------------------------- one step at a time

  /** Member m of `topic` is at `stage`, at time `now`, with these logs and commits. */
  ghost predicate At(s: State, m: nat, topic: Topic, cancelled: bool, stage: Stage) {
    m in s.members && s.members[m].topic == topic && s.members[m].cancelled == cancelled && s.members[m].stage == stage
  }

  ghost predicate SameBrokers(s: State, t: State) {
    t.logs == s.logs && t.committed == s.committed && t.history.now == s.history.now
  }

  /** The run of events leads from s0 to s. */
  ghost predicate Leads(cfg: Config, s0: State, events: seq<Event>, s: State) { Continue(cfg, s0, events) == Some(s) }

  lemma {:induction false} Step(cfg: Config, s0: State, trace: seq<Event>, s: State, e: Event)
    returns (trace': seq<Event>, s': State)
    requires Leads(cfg, s0, trace, s) && Enabled(cfg, s, e)
    ensures s' == Do(cfg, s, e) && Leads(cfg, s0, trace', s')
    ensures Work(trace') == if Passes(e) then Work(trace) else Then(Work(trace), e)
  {
    trace', s' := trace + [e], Do(cfg, s, e);
    assert trace'[..|trace'| - 1] == trace;
  }

  lemma {:induction false} ElapseStep(cfg: Config, s0: State, trace: seq<Event>, s: State, to: int)
    returns (trace': seq<Event>, s': State)
    requires Leads(cfg, s0, trace, s) && s.history.now <= to && ClockFits(to)
    ensures Leads(cfg, s0, trace', s')
    ensures s'.logs == s.logs && s'.committed == s.committed && s'.members == s.members && s'.history.now == to
    ensures Work(trace') == Work(trace)
  {
    trace', s' := Step(cfg, s0, trace, s, Elapse(to));
  }

  lemma {:induction false} CancelStep(cfg: Config, s0: State, trace: seq<Event>, s: State, m: nat)
    returns (trace': seq<Event>, s': State)
    requires Leads(cfg, s0, trace, s) && m in s.members
    ensures Leads(cfg, s0, trace', s') && SameBrokers(s, s') && At(s', m, s.members[m].topic, true, s.members[m].stage)
    ensures Work(trace') == Work(trace)
  {
    trace', s' := Step(cfg, s0, trace, s, Cancel(m));
  }

  lemma {:induction false} GiveUpStep(cfg: Config, s0: State, trace: seq<Event>, s: State, m: nat)
    returns (trace': seq<Event>, s': State)
    requires Leads(cfg, s0, trace, s) && m in s.members && s.members[m].cancelled
    requires var stage := s.members[m].stage; stage.Handling? && Current(s, stage) && !Due(s, s.members[m])
    ensures Leads(cfg, s0, trace', s') && SameBrokers(s, s')
    ensures var stage := s.members[m].stage; At(s', m, s.members[m].topic, true, Committing(stage.batch, stage.done))
    ensures Work(trace') == Then(Work(trace), GiveUp(m))
  {
    trace', s' := Step(cfg, s0, trace, s, GiveUp(m));
  }

  lemma {:induction false} BeginStep(cfg: Config, s0: State, trace: seq<Event>, s: State, m: nat)
    returns (trace': seq<Event>, s': State)
    requires Leads(cfg, s0, trace, s) && m in s.members
    requires var stage := s.members[m].stage; stage.Handling? && Current(s, stage) && Due(s, s.members[m])
    ensures Leads(cfg, s0, trace', s') && SameBrokers(s, s')
    ensures var stage := s.members[m].stage;
            At(s', m, s.members[m].topic, s.members[m].cancelled, Calling(stage.batch, stage.done))
    ensures Work(trace') == Then(Work(trace), Begin(m))
  {
    trace', s' := Step(cfg, s0, trace, s, Begin(m));
  }

  lemma {:induction false} TimeStands(cfg: Config, s: State, e: Event)
    requires Enabled(cfg, s, e) && !e.Elapse?
    ensures Do(cfg, s, e).history.now == s.history.now
  {
    MoveKinds(cfg, s, e);
    ApplyChanges(cfg.policy, s.history, MoveOf(cfg, s, e));
  }

  /** Where a member stands once the handler has answered for its current record. */
  ghost function StageAfter(cfg: Config, batch: seq<Slot>, done: nat, record: Record, outcome: Outcome,
      now: int): Stage {
    var (out, to) := OutRecord(cfg, record, outcome, now);
    if outcome.action.Done? then Handling(batch, done + 1) else Producing(batch, done, out, to)
  }

  lemma {:induction false} AnswerStep(cfg: Config, s0: State, trace: seq<Event>, s: State, m: nat, env: Env)
    returns (trace': seq<Event>, s': State)
    requires Leads(cfg, s0, trace, s) && m in s.members && s.members[m].stage.Calling? && Current(s, s.members[m].stage)
    ensures Leads(cfg, s0, trace', s') && SameBrokers(s, s')
    ensures var stage := s.members[m].stage; var record := CurrentRecord(s, stage);
            At(s', m, s.members[m].topic, s.members[m].cancelled,
               StageAfter(cfg, stage.batch, stage.done, record, HandlerReport(cfg, record, env).outcome, s.history.now))
    ensures Work(trace') == Then(Work(trace), Answer(m, env))
  {
    trace', s' := Step(cfg, s0, trace, s, Answer(m, env));
    TimeStands(cfg, s, Answer(m, env));
  }

  lemma {:induction false} ProduceStep(cfg: Config, s0: State, trace: seq<Event>, s: State, m: nat, p: nat,
      result: ProduceResult)
    returns (trace': seq<Event>, s': State)
    requires Leads(cfg, s0, trace, s) && m in s.members && s.members[m].stage.Producing?
    requires Current(s, s.members[m].stage)
    requires result.Failed? && cfg.strict ==> s.members[m].cancelled
    ensures Leads(cfg, s0, trace', s') && s'.committed == s.committed && s'.history.now == s.history.now
    ensures var stage := s.members[m].stage;
            s'.logs == if result.Acked? || result.appended then Append(s, Partition(stage.topic, p), stage.out)
              else s.logs
    ensures var stage := s.members[m].stage;
            At(s', m, s.members[m].topic, s.members[m].cancelled,
               if result.Acked? then Handling(stage.batch, stage.done + 1) else Committing(stage.batch, stage.done))
    ensures Work(trace') == Then(Work(trace), Event.Produce(m, p, result))
  {
    trace', s' := Step(cfg, s0, trace, s, Event.Produce(m, p, result));
    TimeStands(cfg, s, Event.Produce(m, p, result));
  }

  lemma {:induction false} PollStep(cfg: Config, s: State, m: nat, batch: seq<Slot>, after: map<nat, nat>)
    returns (trace: seq<Event>, s': State)
    requires m in s.members && s.members[m].stage.Polling? && !s.members[m].cancelled
    requires Fetches(s, s.members[m], batch, after)
    ensures Leads(cfg, s, trace, s') && SameBrokers(s, s') && At(s', m, s.members[m].topic, false, Handling(batch, 0))
    ensures Work(trace) == Then(Idle, Poll(m, batch, after))
  {
    trace, s' := Step(cfg, s, [], s, Poll(m, batch, after));
  }

  lemma {:induction false} EndBatchStep(cfg: Config, s0: State, trace: seq<Event>, s: State, m: nat)
    returns (trace': seq<Event>, s': State)
    requires Leads(cfg, s0, trace, s) && m in s.members
    requires var stage := s.members[m].stage; stage.Handling? && stage.done == |stage.batch|
    ensures Leads(cfg, s0, trace', s') && SameBrokers(s, s')
    ensures var stage := s.members[m].stage;
            At(s', m, s.members[m].topic, s.members[m].cancelled, Committing(stage.batch, stage.done))
    ensures Work(trace') == Then(Work(trace), EndBatch(m))
  {
    trace', s' := Step(cfg, s0, trace, s, EndBatch(m));
  }

  lemma {:induction false} CommitStep(cfg: Config, s0: State, trace: seq<Event>, s: State, m: nat, ok: bool)
    returns (trace': seq<Event>, s': State)
    requires Leads(cfg, s0, trace, s) && m in s.members
    requires var stage := s.members[m].stage; stage.Committing? && stage.done <= |stage.batch|
    ensures Leads(cfg, s0, trace', s') && s'.logs == s.logs && s'.history.now == s.history.now
    ensures var stage := s.members[m].stage;
            s'.committed == if ok then s.committed + OffsetsOf(stage.batch[..stage.done]) else s.committed
    ensures At(s', m, s.members[m].topic, s.members[m].cancelled, Polling)
    ensures Work(trace') == Then(Work(trace), Event.Commit(m, ok))
  {
    trace', s' := Step(cfg, s0, trace, s, Event.Commit(m, ok));
  }

  lemma {:induction false} EndSteps(cfg: Config, s0: State, trace: seq<Event>, s: State, m: nat, whole: bool, ok: bool)
    returns (trace': seq<Event>, s': State)
    requires Leads(cfg, s0, trace, s) && m in s.members
    requires var stage := s.members[m].stage;
             if whole then stage.Handling? && stage.done == |stage.batch|
             else stage.Committing? && stage.done <= |stage.batch|
    ensures Leads(cfg, s0, trace', s') && s'.logs == s.logs && s'.history.now == s.history.now
    ensures var stage := s.members[m].stage;
            s'.committed == if ok then s.committed + OffsetsOf(stage.batch[..stage.done]) else s.committed
    ensures At(s', m, s.members[m].topic, s.members[m].cancelled, Polling)
    ensures Work(trace') == EndWork(m, whole, ok, Work(trace))
  {
    trace', s' := trace, s;
    if whole { trace', s' := EndBatchStep(cfg, s0, trace', s', m); }
    trace', s' := CommitStep(cfg, s0, trace', s', m, ok);
  }

  lemma {:induction false} ContinueExtends(cfg: Config, s: State, events: seq<Event>)
    requires Continue(cfg, s, events).Some?
    ensures LogsExtend(s, Continue(cfg, s, events).value)
    decreases |events|
  {
    if |events| > 0 {
      ContinueExtends(cfg, s, events[..|events| - 1]);
      var t := Continue(cfg, s, events[..|events| - 1]).value;
      StepExtends(cfg, t, events[|events| - 1]);
      ExtendTransitive(s, t, Continue(cfg, s, events).value);
    }
  }

  lemma {:induction false} PrefixGrows(batch: seq<Slot>, resolved: seq<Slot>)
    requires resolved < batch
    ensures resolved + [batch[|resolved|]] <= batch
  {
  }

  predicate Holds(s: State, slot: Slot, record: Record) { Exists(s, slot) && RecordAt(s, slot) == record }

  /** The records of the batch, in order, and a turn for each. */
  ghost predicate BatchGiven(cfg: Config, s: State, batch: seq<Slot>, records: seq<Record>, turns: seq<Turn>) {
    && |records| == |batch| == |turns|
    && forall i :: 0 <= i < |batch| ==> Holds(s, batch[i], records[i]) && turns[i].Honest(cfg)
  }

  /** A record stays where it is. */
  lemma {:induction false} RecordStays(cfg: Config, s0: State, events: seq<Event>, s: State, slot: Slot, record: Record)
    requires Leads(cfg, s0, events, s) && Holds(s0, slot, record)
    ensures Holds(s, slot, record)
  {
    ContinueExtends(cfg, s0, events);
    ExistsStays(s0, s, slot);
  }

  lemma {:induction false} ExtendTransitive(s: State, t: State, u: State)
    requires LogsExtend(s, t) && LogsExtend(t, u)
    ensures LogsExtend(s, u)
  {
  }

  /** What a member does from a reachable state is part of a run: it commits past nothing unresolved and loses
      nothing. */
  lemma {:induction false} MemberStaysSafe(cfg: Config, before: seq<Event>, trace: seq<Event>, s: State)
    requires cfg.strict && cfg.policy.Sound() && Run(cfg, before).Some? && Leads(cfg, Run(cfg, before).value, trace, s)
    ensures Run(cfg, before + trace) == Some(s) && CommitsAreSafe(cfg, before + trace)
    ensures NothingLost(cfg, before + trace)
  {
    RunThenContinue(cfg, before, trace);
    StrictCommitsAreSafe(cfg, before + trace);
    StrictLosesNothing(cfg, before + trace);
  }

  // ---------------------------------------------------------------- the code

  /** The brokers, and the clock, as a member sees them. */
  class Cluster {
    var logs: map<Partition, seq<Record>>
    var committed: map<Partition, nat>
    var now: int

    constructor ()
      ensures logs == map[] && committed == map[] && now == 0
    {
      logs, committed, now := map[], map[], 0;
    }

    ghost predicate Shows(s: State)
      reads this
    {
      logs == s.logs && committed == s.committed && now == s.history.now
    }

    method Sleep(time: nat)
      modifies this`now
      ensures now == old(now) + time
    {
      now := now + time;
    }

    /** ProduceSync. */
    method Produce(topic: Topic, partition: nat, record: Record, result: ProduceResult)
      modifies this`logs
      ensures var at := Partition(topic, partition);
              logs == if result.Acked? || result.appended
                      then old(logs)[at := (if at in old(logs) then old(logs)[at] else []) + [record]] else old(logs)
    {
      if result.Acked? || result.appended {
        var at := Partition(topic, partition);
        logs := logs[at := (if at in logs then logs[at] else []) + [record]];
      }
    }

    /** CommitRecords: one past the highest offset of each partition. */
    method CommitRecords(records: seq<Slot>, ok: bool)
      modifies this`committed
      ensures committed == if ok then old(committed) + OffsetsOf(records) else old(committed)
      ensures ok ==> forall slot :: slot in records ==>
                slot.at in committed && IsHighest(records, slot.at, committed[slot.at])
    {
      var offsets: map<Partition, nat> := map[];
      for i := 0 to |records|
        invariant offsets == OffsetsOf(records[..i])
      {
        var slot := records[i];
        offsets := offsets[slot.at := Max(if slot.at in offsets then offsets[slot.at] else 0, slot.offset + 1)];
        assert records[..i + 1][..i] == records[..i];
      }
      assert records[..|records|] == records;
      if ok {
        OffsetsCover(committed, records);
        committed := committed + offsets;
      }
    }
  }

  class KafkaSource {
    const cfg: Config
    const me: nat
    const topic: Topic
    const cluster: Cluster
    var cancelled: bool

    constructor (cfg: Config, me: nat, topic: Topic, cluster: Cluster)
      ensures this.cfg == cfg && this.me == me && this.topic == topic && this.cluster == cluster && !cancelled
    {
      this.cfg, this.me, this.topic, this.cluster, cancelled := cfg, me, topic, cluster, false;
    }

    ghost predicate Is(s: State, stage: Stage)
      reads this, cluster
    {
      cluster.Shows(s) && At(s, me, topic, cancelled, stage)
    }

    /** waitUntilDue: false when the context is cancelled first, or already is. */
    method WaitUntilDue(due: Option<int64>, turn: Turn) returns (ok: bool)
      modifies this`cancelled, cluster`now
      ensures var ns := if due.None? then 0 else due.value * MILLISECOND; var start := old(cluster.now);
              if due.None? || ns <= start then ok && cluster.now == start && cancelled == old(cancelled)
              else if old(cancelled) then !ok && cluster.now == start && cancelled
              else if turn.cancelAfter.Some? && start + turn.cancelAfter.value < ns
              then !ok && cluster.now == start + turn.cancelAfter.value && cancelled
              else ok && cluster.now == ns + turn.late && cancelled == old(cancelled)
    {
      if due.None? { return true; }
      var wait := due.value * MILLISECOND - cluster.now;
      if wait <= 0 { return true; }
      if cancelled { return false; }
      if turn.cancelAfter.Some? && turn.cancelAfter.value < wait {
        cluster.Sleep(turn.cancelAfter.value);
        cancelled := true;
        return false;
      }
      cluster.Sleep(wait + turn.late);
      ok := true;
    }

    /** The record apply produces, with its headers, and the topic it goes to; copyRecord keeps the value. */
    method OutFor(record: Record, attempt: int64, outcome: Outcome) returns (out: Record, to: Topic)
      requires !outcome.action.Done? && attempt == AttemptOf(record.headers)
      ensures (out, to) == OutRecord(cfg, record, outcome, cluster.now)
      ensures out.message == record.message
      ensures outcome.action.DeadLetter? ==>
                to.DeadLetters? && out.headers == [RecordHeader("x-attempt", Itoa(attempt))]
      ensures outcome.action.Retry? && attempt + 1 < TWO_63 ==>
                var due := UnixMilli(cluster.now + outcome.retryIn);
                && to.Retrying?
                && out.headers == [RecordHeader("x-attempt", Itoa(attempt + 1)),
                                   RecordHeader("x-not-before", Itoa(due))]
    {
      if outcome.action.Retry? {
        var notBefore := cluster.now + outcome.retryIn;
        var headers := [RecordHeader(ATTEMPT, Itoa(Wrap64(attempt + 1))),
                        RecordHeader(NOT_BEFORE, Itoa(UnixMilli(notBefore)))];
        out, to := Record(record.message, headers, Successor(cfg.policy, record.task, cluster.now)), Retrying;
      } else {
        out, to := Record(record.message, [RecordHeader(ATTEMPT, Itoa(attempt))], record.task), DeadLetters;
      }
    }

    /** apply, after the handler's answer: produce the retry or the dead letter, if any. */
    method Apply(record: Record, attempt: int64, outcome: Outcome, turn: Turn, ghost s0: State,
        ghost before: seq<Event>,
        ghost s: State, ghost batch: seq<Slot>, ghost i: nat)
      returns (failed: bool, ghost s': State, ghost trace: seq<Event>)
      requires Leads(cfg, s0, before, s) && i < |batch| && Exists(s, batch[i]) && attempt == AttemptOf(record.headers)
      requires turn.Honest(cfg) && ClockFits(s.history.now + turn.producing)
      requires Is(s, StageAfter(cfg, batch, i, record, outcome, s.history.now))
      modifies this`cancelled, cluster
      ensures Leads(cfg, s0, trace, s')
      ensures Is(s', if failed then Committing(batch, i) else Handling(batch, i + 1))
      ensures s'.committed == s.committed && s.history.now <= s'.history.now <= s.history.now + turn.producing
      ensures failed <==> !outcome.action.Done? && turn.result.Failed?
      ensures Work(trace) == if outcome.action.Done? then Work(before)
                             else Then(Work(before), Event.Produce(me, turn.partition, turn.result))
      ensures turn.Calm() ==> cancelled == old(cancelled)
    {
      s', trace := s, before;
      if outcome.action.Done? { return false, s', trace; }
      var out, to := OutFor(record, attempt, outcome);
      trace, s' := ElapseStep(cfg, s0, trace, s', cluster.now + turn.producing);
      cluster.Sleep(turn.producing);
      if turn.cancels {
        trace, s' := CancelStep(cfg, s0, trace, s', me);
        cancelled := true;
      }
      assert Is(s', Producing(batch, i, out, to)) && s'.logs == s.logs;
      trace, s' := ProduceStep(cfg, s0, trace, s', me, turn.partition, turn.result);
      cluster.Produce(to, turn.partition, out, turn.result);
      failed := turn.result.Failed?;
    }

    /** The wait for a record's due time, if it has to wait. */
    method AwaitDue(record: Record, waitDue: bool, turn: Turn, ghost s0: State, ghost before: seq<Event>,
        ghost s: State, ghost batch: seq<Slot>, ghost i: nat)
      returns (ok: bool, ghost s': State, ghost trace: seq<Event>)
      requires Leads(cfg, s0, before, s) && i < |batch| && Holds(s, batch[i], record)
      requires Is(s, Handling(batch, i)) && waitDue == topic.Retrying?
      requires 0 <= s.history.now && ClockFits(Max(s.history.now, DueNs(waitDue, record)) + turn.late)
      modifies this`cancelled, cluster`now
      ensures Leads(cfg, s0, trace, s') && s'.logs == s.logs && s'.committed == s.committed
      ensures Is(s', if ok then Handling(batch, i) else Committing(batch, i))
      ensures s.history.now <= s'.history.now <= Max(s.history.now, DueNs(waitDue, record)) + turn.late
      ensures ok ==> DueNs(waitDue, record) <= s'.history.now
      ensures Work(trace) == if ok then Work(before) else Then(Work(before), GiveUp(me))
      ensures (!ok ==> cancelled) && (turn.Calm() ==> cancelled == old(cancelled))
    {
      s', trace := s, before;
      ok := true;
      if waitDue {
        ok := WaitUntilDue(NotBefore(record.headers), turn);
        trace, s' := ElapseStep(cfg, s0, trace, s', cluster.now);
        if !ok {
          trace, s' := CancelStep(cfg, s0, trace, s', me);
          trace, s' := GiveUpStep(cfg, s0, trace, s', me);
        }
      }
    }

    /** The handler's call for a record that is due, and its outcome applied. */
    method CallHandler(record: Record, turn: Turn, ghost s0: State, ghost before: seq<Event>, ghost s: State,
        ghost batch: seq<Slot>, ghost i: nat, ghost answer: Outcome)
      returns (ok: bool, ghost s': State, ghost trace: seq<Event>)
      requires Leads(cfg, s0, before, s) && i < |batch| && Holds(s, batch[i], record)
      requires Is(s, Handling(batch, i)) && turn.Honest(cfg) && answer == Answered(cfg, record, turn)
      requires topic.Retrying? ==> DueNs(true, record) <= s.history.now
      requires 0 <= s.history.now && ClockFits(s.history.now + turn.handling + turn.producing)
      modifies this`cancelled, cluster
      ensures Leads(cfg, s0, trace, s')
      ensures Is(s', if ok then Handling(batch, i + 1) else Committing(batch, i))
      ensures s'.committed == s.committed
      ensures s.history.now <= s'.history.now <= s.history.now + turn.handling + turn.producing
      ensures Work(trace) == RecordWork(me, answer, turn, Work(before)) && (ok <==> !Fails(answer, turn))
      ensures turn.Calm() ==> cancelled == old(cancelled)
    {
      trace, s' := BeginStep(cfg, s0, before, s, me);
      var attempt := AttemptOf(record.headers);
      trace, s' := ElapseStep(cfg, s0, trace, s', cluster.now + turn.handling);
      cluster.Sleep(turn.handling);
      var outcome := HandlerReport(cfg, record, turn.env).outcome;
      assert outcome == answer;
      assert s'.logs == s.logs && Is(s', Calling(batch, i));
      trace, s' := AnswerStep(cfg, s0, trace, s', me, turn.env);
      var failed: bool;
      failed, s', trace := Apply(record, attempt, outcome, turn, s0, trace, s', batch, i);
      ok := !failed;
    }

    /** One record: wait until it is due, call the handler, apply its outcome. */
    method HandleRecord(record: Record, waitDue: bool, turn: Turn, ghost s0: State, ghost before: seq<Event>,
        ghost s: State, ghost batch: seq<Slot>, ghost i: nat, ghost answer: Outcome)
      returns (ok: bool, ghost s': State, ghost trace: seq<Event>)
      requires Leads(cfg, s0, before, s) && i < |batch| && Holds(s, batch[i], record)
      requires Is(s, Handling(batch, i)) && waitDue == topic.Retrying? && turn.Honest(cfg)
      requires answer == Answered(cfg, record, turn)
      requires 0 <= s.history.now && ClockFits(Max(s.history.now, DueNs(waitDue, record)) + turn.Cost())
      modifies this`cancelled, cluster
      ensures Leads(cfg, s0, trace, s')
      ensures Is(s', if ok then Handling(batch, i + 1) else Committing(batch, i))
      ensures s'.committed == s.committed
      ensures s.history.now <= s'.history.now <= Max(s.history.now, DueNs(waitDue, record)) + turn.Cost()
      ensures HandledOne(me, answer, turn, ok, cancelled, Work(before), Work(trace))
      ensures turn.Calm() ==> cancelled == old(cancelled)
    {
      ok, s', trace := AwaitDue(record, waitDue, turn, s0, before, s, batch, i);
      if ok { ok, s', trace := CallHandler(record, turn, s0, trace, s', batch, i, answer); }
    }

    /** Of the batch, k records are resolved, and the work since `begun` is theirs. */
    ghost predicate InBatch(batch: seq<Slot>, answers: seq<Outcome>, turns: seq<Turn>, k: nat, stopped: bool,
        begun: Steps, s0: State, trace: seq<Event>, s: State)
      requires k <= |batch| == |answers| == |turns|
      reads this, cluster
    {
      && Leads(cfg, s0, trace, s) && Is(s, if stopped then Committing(batch, k) else Handling(batch, k))
      && s.committed == s0.committed && Worked(me, answers, turns, k, stopped, cancelled, begun, Work(trace))
    }

    /** The turn of record i in a batch that was polled at `start`, unless the batch has stopped. */
    method NextRecord(batch: seq<Slot>, records: seq<Record>, waitDue: bool, turns: seq<Turn>, i: nat,
        resolved: seq<Slot>, stopped: bool, ghost s0: State, ghost before: seq<Event>, ghost s: State, ghost start: int,
        ghost begun: Steps, ghost answers: seq<Outcome>, ghost bounds: seq<int>)
      returns (resolved': seq<Slot>, stopped': bool, ghost s': State, ghost trace: seq<Event>)
      requires BatchGiven(cfg, s0, batch, records, turns) && waitDue == topic.Retrying? && i < |batch|
      requires AreAnswers(cfg, records, turns, answers)
      requires Reaches(batch, resolved, stopped, i)
      requires InBatch(batch, answers, turns, |resolved|, stopped, begun, s0, before, s)
      requires AreBounds(waitDue, records, turns, start, bounds)
      requires 0 <= start <= cluster.now <= bounds[i] && ClockFits(bounds[|batch|])
      modifies this`cancelled, cluster
      ensures Reaches(batch, resolved', stopped', i + 1)
      ensures InBatch(batch, answers, turns, |resolved'|, stopped', begun, s0, trace, s')
      ensures start <= cluster.now <= bounds[i + 1]
      ensures AllCalm(turns) ==> cancelled == old(cancelled)
    {
      resolved', stopped', s', trace := resolved, stopped, s, before;
      assert bounds[i] == FinishBound(waitDue, records, turns, start, i);
      assert bounds[i + 1] == FinishBound(waitDue, records, turns, start, i + 1);
      assert bounds[|batch|] == FinishBound(waitDue, records, turns, start, |batch|);
      if stopped {
        BoundGrows(waitDue, records, turns, start, i, i + 1);
        return;
      }
      TurnWithinBound(waitDue, records, turns, start, i, cluster.now);
      RecordStays(cfg, s0, before, s, batch[i], records[i]);
      assert answers[i] == Answered(cfg, records[i], turns[i]);
      var ok: bool;
      ok, s', trace := HandleRecord(records[i], waitDue, turns[i], s0, before, s, batch, i, answers[i]);
      WorkGrows(me, answers, turns, i, ok, old(cancelled), cancelled, begun, Work(before), Work(trace));
      stopped' := !ok;
      if ok {
        PrefixGrows(batch, resolved);
        resolved' := resolved + [batch[i]];
      }
    }

    /** processBatch: the records in order, up to the first one that cannot be resolved. */
    method ProcessBatch(batch: seq<Slot>, records: seq<Record>, waitDue: bool, turns: seq<Turn>, ghost s0: State,
        ghost before: seq<Event>, ghost s: State, ghost begun: Steps, ghost answers: seq<Outcome>,
        ghost bounds: seq<int>)
      returns (resolved: seq<Slot>, ghost s': State, ghost trace: seq<Event>)
      requires BatchGiven(cfg, s0, batch, records, turns) && waitDue == topic.Retrying?
      requires AreAnswers(cfg, records, turns, answers)
      requires InBatch(batch, answers, turns, 0, false, begun, s0, before, s)
      requires AreBounds(waitDue, records, turns, cluster.now, bounds)
      requires 0 <= cluster.now && ClockFits(bounds[|batch|])
      modifies this`cancelled, cluster
      ensures resolved <= batch
      ensures InBatch(batch, answers, turns, |resolved|, |resolved| < |batch|, begun, s0, trace, s')
      ensures AllCalm(turns) ==> cancelled == old(cancelled)
      ensures cluster.now <= bounds[|batch|]
    {
      resolved := [];
      s', trace := s, before;
      var stopped := false;
      for i := 0 to |batch|
        invariant Reaches(batch, resolved, stopped, i)
        invariant InBatch(batch, answers, turns, |resolved|, stopped, begun, s0, trace, s')
        invariant old(cluster.now) <= cluster.now <= bounds[i]
        invariant AllCalm(turns) ==> cancelled == old(cancelled)
      {
        resolved, stopped, s', trace := NextRecord(batch, records, waitDue, turns, i, resolved, stopped, s0, trace, s',
          old(cluster.now), begun, answers, bounds);
      }
    }

    /** The rest of a turn of consume, once a poll has handed out a batch: process it and commit what was resolved. From
        a state that some run reaches, it is over within the rebalance timeout. */
    method ConsumeBatch(batch: seq<Slot>, after: map<nat, nat>, records: seq<Record>, turns: seq<Turn>, commitOk: bool,
        ghost s0: State,
        ghost run: seq<Event>)
      returns (resolved: seq<Slot>, ghost s': State, ghost trace: seq<Event>)
      requires BatchGiven(cfg, s0, batch, records, turns) && Is(s0, Polling) && !cancelled
      requires Fetches(s0, s0.members[me], batch, after)
      requires 0 <= s0.history.now && ClockFits(FinishBound(topic.Retrying?, records, turns, s0.history.now, |batch|))
      modifies this`cancelled, cluster
      ensures Leads(cfg, s0, trace, s') && Is(s', Polling) && resolved <= batch
      ensures cluster.committed
              == if commitOk then old(cluster.committed) + OffsetsOf(resolved) else old(cluster.committed)
      ensures commitOk ==> forall slot :: slot in resolved ==>
                slot.at in cluster.committed && IsHighest(resolved, slot.at, cluster.committed[slot.at])
      ensures cluster.now <= FinishBound(topic.Retrying?, records, turns, old(cluster.now), |batch|)
      ensures Reached(cfg, run, s0) && WithinMargin(cfg, turns) ==>
                cluster.now <= old(cluster.now) + RebalanceTimeout(cfg.policy)
      ensures TurnWorked(me, Answers(cfg, records, turns), turns, |resolved|, cancelled, Poll(me, batch, after),
                commitOk, Work(trace))
      ensures AllCalm(turns) && NoneFails(Answers(cfg, records, turns), turns) ==> resolved == batch
    {
      ReachedFits(cfg, run, s0, batch, records, turns, s0.members[me], after);
      trace, s' := PollStep(cfg, s0, me, batch, after);
      ghost var answers := Answers(cfg, records, turns);
      resolved, s', trace := ProcessBatch(batch, records, topic.Retrying?, turns, s0, trace, s',
        Then(Idle, Poll(me, batch, after)), answers, Bounds(topic.Retrying?, records, turns, s0.history.now));
      TurnEnds(me, answers, turns, |resolved|, cancelled, Poll(me, batch, after), commitOk, Work(trace));
      s', trace := CommitResolved(resolved, batch, commitOk, s0, trace, s');
    }

    /** The end of a turn of consume: commit what was resolved, if anything. */
    method CommitResolved(resolved: seq<Slot>, batch: seq<Slot>, commitOk: bool, ghost s0: State,
        ghost before: seq<Event>, ghost s: State)
      returns (ghost s': State, ghost trace: seq<Event>)
      requires Leads(cfg, s0, before, s) && resolved <= batch
      requires Is(s, if |resolved| == |batch| then Handling(batch, |batch|) else Committing(batch, |resolved|))
      modifies cluster`committed
      ensures Leads(cfg, s0, trace, s') && Is(s', Polling)
      ensures cluster.committed
              == if commitOk then old(cluster.committed) + OffsetsOf(resolved) else old(cluster.committed)
      ensures commitOk ==> forall slot :: slot in resolved ==>
                slot.at in cluster.committed && IsHighest(resolved, slot.at, cluster.committed[slot.at])
      ensures Work(trace) == EndWork(me, |resolved| == |batch|, commitOk, Work(before))
    {
      assert resolved == batch[..|resolved|];
      trace, s' := EndSteps(cfg, s0, before, s, me, |resolved| == |batch|, commitOk);
      if |resolved| > 0 { cluster.CommitRecords(resolved, commitOk); }
    }
  }
}
