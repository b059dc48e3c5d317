/** The RabbitMQ transport as a state machine: internal/infrastructure/messaging/rabbitmq_consumer.go,
    rabbitmq_dispatch.go and the queues of rabbitmq_topology.go, with every broker fault they meet. */
module RabbitBroker {
  import opened Numbers
  import opened RetryPolicies
  import opened Topologies
  import opened Delivery
  import opened DelayedRetry

  /** The x-attempt entry of an amqp.Table. */
  datatype Header = Absent | Int64(long: int64) | Int32(short: int64) | Int(plain: int64) | NotNumeric

  function AttemptOf(header: Header): (n: int64)
    ensures n >= 1 && (header == Int64(n) || header == Int32(n) || header == Int(n) || n == 1)
    ensures header.Int64? ==> header.long <= n
    ensures header.Int32? ==> header.short <= n
    ensures header.Int? ==> header.plain <= n
  {
    match header
    case Int64(v) => Max(v, 1)
    case Int32(v) => Max(v, 1)
    case Int(v) => Max(v, 1)
    case _ => 1
  }

  /** Where the broker keeps a copy of a message: in a queue since some time, or out with a consumer. */
  datatype Place = Ready(queue: string, since: int) | Unacked(worker: nat)

  /** A copy of a message. `task` is a history tag: no step of the code looks at it. */
  datatype Copy = Copy(message: Message, header: Header, task: Task, place: Place)

  /** How far a consumer is with the delivery it holds, numbered `no`. */
  datatype Stage =
    | Idle
    | Working(no: nat, copy: Copy)
    | Publishing(no: nat, copy: Copy, outcome: Outcome, next: Task)
    | Acking(no: nat)
    | Nacking(no: nat)

  datatype Worker = Worker(connected: bool, stage: Stage)

  datatype Config = Config(queue: string, policy: RetryPolicy) {
    function Topology(): Topology { TopologyOf(queue, policy) }
  }

  /** A callback that fired, for the history of a message. */
  datatype Notice = Notice(id: nat, attempt: int, status: Status)

  /** Copies are numbered in the order they reached the broker, so a queue is its copies by increasing number. */
  datatype State = State(
    args: Registry, copies: map<nat, Copy>, nextNo: nat, workers: map<nat, Worker>, history: Ledger,
      notices: set<Notice>)

  /** How a publish ends: confirmed; refused; enqueued without the confirm arriving; never enqueued. */
  datatype PublishResult = Confirmed | Rejected | Lost | Unsent

  datatype Event =
    | Produce(message: Message, header: Header)
    | Elapse(to: int)
    | Join(w: nat)
    | Reconnect(w: nat)
    | Deliver(w: nat, no: nat)
    | Process(w: nat, env: Env)
    | Publish(w: nat, result: PublishResult)
    | Ack(w: nat, ok: bool)
    | Nack(w: nat, ok: bool)
    | Drop(w: nat)
    | Crash(w: nat)
    | Expire(no: nat)

  function Init(args: Registry): State { State(args, map[], 0, map[], EMPTY, {}) }

  // ---------------------------------------------------------------- what the code does with a delivery

  function HandlerReport(cfg: Config, copy: Copy, env: Env): Report {
    Handle(copy.message, cfg.policy, AttemptOf(copy.header), env)
  }

  /** The queue `apply` publishes to. With no retry queue declared, a retry panics instead (see CanTarget). */
  function Target(cfg: Config, outcome: Outcome): string
    requires CanTarget(cfg, outcome)
  {
    if outcome.action.Retry? then cfg.Topology().RetryQueue(outcome.retryIn) else cfg.Topology().deadLetter
  }

  predicate CanTarget(cfg: Config, outcome: Outcome) { outcome.action.Retry? ==> |cfg.Topology().retryDelays| > 0 }

  function NewHeader(copy: Copy, outcome: Outcome): Header {
    var attempt := AttemptOf(copy.header);
    Int64(Wrap64(if outcome.action.Retry? then attempt + 1 else attempt))
  }

  /** Whether a publish leaves a copy behind; a publish to an undeclared queue is confirmed and dropped. */
  predicate Enqueues(s: State, target: string, result: PublishResult) {
    (result.Confirmed? || result.Lost?) && target in s.args
  }

  predicate Holds(s: State, w: nat, no: nat) { no in s.copies && s.copies[no].place == Unacked(w) }

  /** No copy of the same queue arrived before. */
  ghost predicate IsHead(s: State, no: nat)
    requires no in s.copies && s.copies[no].place.Ready?
  {
    forall k :: k in s.copies && s.copies[k].place.Ready? && s.copies[k].place.queue == s.copies[no].place.queue ==>
      no <= k
  }

  predicate Expired(s: State, no: nat) {
    && no in s.copies && s.copies[no].place.Ready?
    && var q := s.copies[no].place.queue;
       q in s.args && s.args[q].Delayed?
         && s.copies[no].place.since + s.args[q].ttlMillis * MILLISECOND <= s.history.now
  }

  ghost predicate Enabled(cfg: Config, s: State, e: Event) {
    match e
    case Produce(_, _) => cfg.queue in s.args
    case Elapse(to) => s.history.now <= to
    case Join(w) => w !in s.workers && DeclareAll(s.args, cfg.Topology().Declarations()).1
    case Reconnect(w) =>
      w in s.workers && s.workers[w] == Worker(false, Idle) && DeclareAll(s.args, cfg.Topology().Declarations()).1
    case Deliver(w, no) =>
      && w in s.workers && s.workers[w] == Worker(true, Idle)
      && (forall k :: k in s.copies ==> s.copies[k].place != Unacked(w))
      && no in s.copies && s.copies[no].place.Ready? && s.copies[no].place.queue == cfg.queue
    case Process(w, _) => w in s.workers && s.workers[w].stage.Working?
    case Publish(w, result) =>
      && w in s.workers && s.workers[w].stage.Publishing? && CanTarget(cfg, s.workers[w].stage.outcome)
      && (s.workers[w].connected || result.Unsent?)
    case Ack(w, ok) =>
      && w in s.workers && s.workers[w].stage.Acking?
      && (ok ==> s.workers[w].connected && Holds(s, w, s.workers[w].stage.no))
    case Nack(w, ok) =>
      && w in s.workers && s.workers[w].stage.Nacking?
      && (ok ==> s.workers[w].connected && Holds(s, w, s.workers[w].stage.no))
    case Drop(w) => w in s.workers && s.workers[w].connected
    case Crash(w) => w in s.workers
    case Expire(no) => Expired(s, no) && IsHead(s, no)
  }

  /** What the step means to the delayed-retry machine. */
  ghost function MoveOf(cfg: Config, s: State, e: Event): Move
    requires Enabled(cfg, s, e)
  {
    match e
    case Produce(message, header) => Submit(message, AttemptOf(header))
    case Elapse(to) => Wait(to)
    case Deliver(_, no) => Start(s.copies[no].task)
    case Process(w, env) =>
      var copy := s.workers[w].stage.copy;
      var report := HandlerReport(cfg, copy, env);
      if report.IsSent() then Finish(copy.task, EndSent)
      else if report.IsAccepted() then Finish(copy.task, EndAccepted)
      else if report.outcome.action.Retry? then Again(copy.task)
      else Stutter
    case Publish(w, result) =>
      var stage := s.workers[w].stage;
      if stage.outcome.action.DeadLetter? && Enqueues(s, Target(cfg, stage.outcome), result)
      then Finish(stage.copy.task, EndDead) else Stutter
    case _ => Stutter
  }

  function SetStage(s: State, w: nat, stage: Stage): State
    requires w in s.workers
  {
    s.(workers := s.workers[w := s.workers[w].(stage := stage)])
  }

  /** The connection of w is gone: the broker puts its unacked deliveries back. */
  function Requeue(s: State, w: nat, queue: string): map<nat, Copy> {
    map no | no in s.copies ::
      if s.copies[no].place == Unacked(w) then s.copies[no].(place := Ready(queue, s.history.now)) else s.copies[no]
  }

  function NoticesOf(copy: Copy, report: Report): set<Notice> {
    set e | e in report.effects && e.Notified? :: Notice(copy.task.id, copy.task.attempt, e.event.status)
  }

  function AfterProcess(cfg: Config, s: State, w: nat, env: Env): State
    requires w in s.workers && s.workers[w].stage.Working?
  {
    var no, copy := s.workers[w].stage.no, s.workers[w].stage.copy;
    var report := HandlerReport(cfg, copy, env);
    var stage := if report.outcome.action.Done? then Acking(no)
                 else Publishing(no, copy, report.outcome, Successor(cfg.policy, copy.task, s.history.now));
    SetStage(s, w, stage).(notices := s.notices + NoticesOf(copy, report))
  }

  function AfterPublish(cfg: Config, s: State, w: nat, result: PublishResult): State
    requires w in s.workers && s.workers[w].stage.Publishing? && CanTarget(cfg, s.workers[w].stage.outcome)
  {
    var Publishing(no, copy, outcome, next) := s.workers[w].stage;
    var target := Target(cfg, outcome);
    var settled := SetStage(s, w, if result.Confirmed? then Acking(no) else Nacking(no));
    if Enqueues(s, target, result) then
      var task := if outcome.action.Retry? then next else copy.task;
      settled.(copies := s.copies[s.nextNo := Copy(copy.message, NewHeader(copy, outcome), task,
        Ready(target, s.history.now))],
               nextNo := s.nextNo + 1)
    else settled
  }

  /** The broker and the consumers after the step, apart from the ledger. */
  ghost function Effects(cfg: Config, s: State, e: Event): State
    requires Enabled(cfg, s, e)
  {
    match e
    case Produce(message, header) =>
      var task := Task(s.history.nextId, message, AttemptOf(header), s.history.now);
      s.(copies := s.copies[s.nextNo := Copy(message, header, task, Ready(cfg.queue, s.history.now))],
        nextNo := s.nextNo + 1)
    case Elapse(_) => s
    case Join(w) =>
      s.(args := DeclareAll(s.args, cfg.Topology().Declarations()).0, workers := s.workers[w := Worker(true, Idle)])
    case Reconnect(w) =>
      s.(args := DeclareAll(s.args, cfg.Topology().Declarations()).0, workers := s.workers[w := Worker(true, Idle)])
    case Deliver(w, no) =>
      SetStage(s, w, Working(no, s.copies[no])).(copies := s.copies[no := s.copies[no].(place := Unacked(w))])
    case Process(w, env) => AfterProcess(cfg, s, w, env)
    case Publish(w, result) => AfterPublish(cfg, s, w, result)
    case Ack(w, ok) =>
      var no := s.workers[w].stage.no;
      if ok then SetStage(s, w, Idle).(copies := s.copies - {no}) else SetStage(s, w, Idle)
    case Nack(w, ok) =>
      var no := s.workers[w].stage.no;
      if ok then
        SetStage(s, w, Idle).(copies := s.copies[no := s.copies[no].(place := Ready(cfg.queue, s.history.now))])
      else SetStage(s, w, Idle)
    case Drop(w) =>
      s.(workers := s.workers[w := s.workers[w].(connected := false)], copies := Requeue(s, w, cfg.queue))
    case Crash(w) =>
      s.(workers := s.workers[w := Worker(false, Idle)], copies := Requeue(s, w, cfg.queue))
    case Expire(no) =>
      var target := s.args[s.copies[no].place.queue].target;
      s.(copies := s.copies[no := s.copies[no].(place := Ready(target, s.history.now))])
  }

  ghost function Do(cfg: Config, s: State, e: Event): State
    requires Enabled(cfg, s, e)
  {
    Effects(cfg, s, e).(history := Apply(cfg.policy, s.history, MoveOf(cfg, s, e)))
  }

  /** The state after a run, if every event is possible when it happens. Earlier runs may have left queues behind. */
  ghost function Run(cfg: Config, leftover: Registry, events: seq<Event>): Option<State>
    decreases |events|
  {
    if |events| == 0 then Some(Init(leftover))
    else match Run(cfg, leftover, events[..|events| - 1])
      case None => None
      case Some(s) => if Enabled(cfg, s, events[|events| - 1]) then Some(Do(cfg, s, events[|events| - 1])) else None
  }

  /** The state after more events. */
  ghost function Continue(cfg: Config, s: State, events: seq<Event>): Option<State>
    decreases |events|
  {
    if |events| == 0 then Some(s)
    else if Enabled(cfg, s, events[0]) then Continue(cfg, Do(cfg, s, events[0]), events[1..]) else None
  }

  lemma {:induction false} ContinueOne(cfg: Config, s: State, e: Event, rest: seq<Event>)
    requires Enabled(cfg, s, e)
    ensures Continue(cfg, s, [e] + rest) == Continue(cfg, Do(cfg, s, e), rest)
  {
  }

  lemma {:induction false} ContinueConcat(cfg: Config, s: State, first: seq<Event>, rest: seq<Event>)
    requires Continue(cfg, s, first).Some?
    ensures Continue(cfg, s, first + rest) == Continue(cfg, Continue(cfg, s, first).value, rest)
    decreases |first|
  {
    if |first| == 0 {
      assert first + rest == rest;
    } else {
      assert first + rest == [first[0]] + (first[1..] + rest);
      ContinueOne(cfg, s, first[0], first[1..] + rest);
      ContinueConcat(cfg, Do(cfg, s, first[0]), first[1..], rest);
    }
  }
}
