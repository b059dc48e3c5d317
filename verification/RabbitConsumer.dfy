/** The code of one RabbitMQ consumer, internal/infrastructure/messaging/rabbitmq_consumer.go and rabbitmq_dispatch.go,
    against the broker, proved to make the steps of RabbitBroker. */
module RabbitConsumer {
  import opened Numbers
  import opened Topologies
  import opened Delivery
  import opened DelayedRetry
  import opened RabbitBroker
  import opened RabbitSafety

  /** How the broker answers while one delivery is handled: to the publish, and to the ack or nack that follows. */
  datatype Answers = Answers(publish: PublishResult, settleOk: bool)

  /** The broker as its clients change it. */
  class Broker {
    var args: Registry
    var copies: map<nat, Copy>
    var nextNo: nat
    var now: int

    constructor (args: Registry)
      ensures this.args == args && copies == map[] && nextNo == 0 && now == 0
    {
      this.args, copies, nextNo, now := args, map[], 0, 0;
    }

    ghost predicate Shows(s: State)
      reads this
    {
      args == s.args && copies == s.copies && nextNo == s.nextNo && now == s.history.now
    }

    /** A publish to the default exchange with mandatory unset. */
    method Publish(target: string, message: Message, header: Header, task: Task, result: PublishResult)
      modifies this
      ensures args == old(args) && now == old(now)
      ensures if (result.Confirmed? || result.Lost?) && target in old(args)
        then nextNo == old(nextNo) + 1
          && copies == old(copies)[old(nextNo) := Copy(message, header, task, Ready(target, old(now)))]
        else nextNo == old(nextNo) && copies == old(copies)
    {
      if (result.Confirmed? || result.Lost?) && target in args {
        copies := copies[nextNo := Copy(message, header, task, Ready(target, now))];
        nextNo := nextNo + 1;
      }
    }

    method Ack(no: nat)
      requires no in copies
      modifies this`copies
      ensures copies == old(copies) - {no}
    {
      copies := copies - {no};
    }

    method NackRequeue(no: nat, queue: string)
      requires no in copies
      modifies this`copies
      ensures copies == old(copies)[no := old(copies)[no].(place := Ready(queue, now))]
    {
      copies := copies[no := copies[no].(place := Ready(queue, now))];
    }

    method Deliver(no: nat, w: nat) returns (msg: Copy)
      requires no in copies
      modifies this`copies
      ensures msg == old(copies)[no] && copies == old(copies)[no := msg.(place := Unacked(w))]
    {
      msg := copies[no];
      copies := copies[no := msg.(place := Unacked(w))];
    }
  }

  /** The steps `apply` makes once the handler has answered. */
  ghost function ApplyEvents(s: State, w: nat, answers: Answers): seq<Event>
    requires w in s.workers
  {
    if s.workers[w].stage.Acking? then [Event.Ack(w, answers.settleOk)]
    else [Event.Publish(w, answers.publish),
          if answers.publish.Confirmed? then Event.Ack(w, answers.settleOk) else Event.Nack(w, answers.settleOk)]
  }

  /** The steps one delivery takes. */
  ghost function DeliveryEvents(cfg: Config, s: State, w: nat, no: nat, env: Env, answers: Answers): seq<Event>
    requires no in s.copies
  {
    [Event.Deliver(w, no), Process(w, env)]
    + if HandlerReport(cfg, s.copies[no], env).outcome.action.Done? then [Event.Ack(w, answers.settleOk)]
      else [Event.Publish(w, answers.publish),
            if answers.publish.Confirmed? then Event.Ack(w, answers.settleOk) else Event.Nack(w, answers.settleOk)]
  }

  /** The steps of the delivery loop: every delivery that may be handed out when its turn comes is handled. */
  ghost function LoopEvents(cfg: Config, s0: State, w: nat, turns: seq<(nat, Env, Answers)>): seq<Event>
    decreases |turns|
  {
    if |turns| == 0 then []
    else
      var before := LoopEvents(cfg, s0, w, turns[..|turns| - 1]);
      var (no, env, answers) := turns[|turns| - 1];
      match Continue(cfg, s0, before)
      case None => before
      case Some(s) =>
        if Enabled(cfg, s, Event.Deliver(w, no)) then before + DeliveryEvents(cfg, s, w, no, env, answers) else before
  }

  predicate IsIdle(s: State, w: nat) { w in s.workers && s.workers[w] == Worker(true, Idle) }

  /** The state in which a consumer applies the outcome of the delivery it was just handed. */
  ghost function Answered(cfg: Config, s: State, w: nat, no: nat, env: Env): State
    requires Enabled(cfg, s, Event.Deliver(w, no))
  {
    Do(cfg, Do(cfg, s, Event.Deliver(w, no)), Process(w, env))
  }

  lemma {:induction false} AnsweredShape(cfg: Config, s: State, w: nat, no: nat, env: Env)
    requires Enabled(cfg, s, Event.Deliver(w, no))
    ensures var s2 := Answered(cfg, s, w, no, env); var msg := s.copies[no];
            var outcome := HandlerReport(cfg, msg, env).outcome;
            && s2.args == s.args && s2.nextNo == s.nextNo && s2.copies == s.copies[no := msg.(place := Unacked(w))]
            && s2.workers == s.workers[w := Worker(true, if outcome.action.Done? then Acking(no)
                 else Publishing(no, msg, outcome, Successor(cfg.policy, msg.task, s.history.now)))]
  {
  }

  lemma {:induction false} AnsweredKeeps(cfg: Config, s: State, w: nat, no: nat, env: Env)
    requires cfg.policy.Sound() && Inv(cfg, s) && Enabled(cfg, s, Event.Deliver(w, no))
    ensures Inv(cfg, Answered(cfg, s, w, no, env)) && no < s.nextNo
    ensures Answered(cfg, s, w, no, env).history.now == s.history.now
  {
    var s1 := Do(cfg, s, Event.Deliver(w, no));
    InvKept(cfg, s, Event.Deliver(w, no));
    InvKept(cfg, s1, Process(w, env));
    TimeStands(cfg, s, Event.Deliver(w, no));
    TimeStands(cfg, s1, Process(w, env));
  }

  lemma {:induction false} TimeStands(cfg: Config, s: State, e: Event)
    requires Enabled(cfg, s, e) && !e.Elapse?
    ensures Do(cfg, s, e).history.now == s.history.now
  {
    MoveKinds(cfg, s, e);
    ApplyChanges(cfg.policy, s.history, MoveOf(cfg, s, e));
  }

  lemma {:induction false} AnsweredCanTarget(cfg: Config, s: State, w: nat, no: nat, env: Env)
    requires cfg.policy.Sound() && Inv(cfg, s) && Enabled(cfg, s, Event.Deliver(w, no))
    ensures CanTarget(cfg, HandlerReport(cfg, s.copies[no], env).outcome)
  {
  }

  lemma {:induction false} AnsweredContinues(cfg: Config, s: State, w: nat, no: nat, env: Env, events: seq<Event>)
    requires Enabled(cfg, s, Event.Deliver(w, no))
    ensures Continue(cfg, s, [Event.Deliver(w, no)] + ([Process(w, env)] + events))
              == Continue(cfg, Answered(cfg, s, w, no, env), events)
  {
  }

  lemma {:induction false} AnsweredEvents(cfg: Config, s: State, w: nat, no: nat, env: Env, answers: Answers)
    requires Enabled(cfg, s, Event.Deliver(w, no))
    ensures w in Answered(cfg, s, w, no, env).workers
    ensures [Event.Deliver(w, no)] + ([Process(w, env)] + ApplyEvents(Answered(cfg, s, w, no, env), w, answers))
            == DeliveryEvents(cfg, s, w, no, env, answers)
  {
    AnsweredShape(cfg, s, w, no, env);
  }

  lemma {:induction false} AckAlone(cfg: Config, s: State, w: nat, answers: Answers)
    requires w in s.workers && s.workers[w].stage.Acking? && Enabled(cfg, s, Event.Ack(w, answers.settleOk))
    ensures Continue(cfg, s, ApplyEvents(s, w, answers)) == Some(Do(cfg, s, Event.Ack(w, answers.settleOk)))
  {
    ContinueOne(cfg, s, Event.Ack(w, answers.settleOk), []);
    assert ApplyEvents(s, w, answers) == [Event.Ack(w, answers.settleOk)] + [];
  }

  lemma {:induction false} PublishShape(cfg: Config, s: State, w: nat, result: PublishResult)
    requires Enabled(cfg, s, Event.Publish(w, result))
    ensures var s', after := Do(cfg, s, Event.Publish(w, result)), AfterPublish(cfg, s, w, result);
            && s'.args == after.args && s'.copies == after.copies && s'.nextNo == after.nextNo
            && s'.workers == after.workers
  {
  }

  lemma {:induction false} PublishThenSettle(cfg: Config, s: State, w: nat, answers: Answers)
    requires w in s.workers && s.workers[w].stage.Publishing? && Enabled(cfg, s, Event.Publish(w, answers.publish))
    requires var s1 := Do(cfg, s, Event.Publish(w, answers.publish)); Enabled(cfg, s1, ApplyEvents(s, w, answers)[1])
    ensures Continue(cfg, s, ApplyEvents(s, w, answers))
            == Some(Do(cfg, Do(cfg, s, Event.Publish(w, answers.publish)), ApplyEvents(s, w, answers)[1]))
  {
    var last := ApplyEvents(s, w, answers)[1];
    ContinueOne(cfg, Do(cfg, s, Event.Publish(w, answers.publish)), last, []);
    ContinueOne(cfg, s, Event.Publish(w, answers.publish), [last]);
    assert [last] == [last] + [] && ApplyEvents(s, w, answers) == [Event.Publish(w, answers.publish)] + [last];
  }

  class Consumer {
    const cfg: Config
    const me: nat
    const broker: Broker

    constructor (cfg: Config, me: nat, broker: Broker)
      ensures this.cfg == cfg && this.me == me && this.broker == broker
    {
      this.cfg, this.me, this.broker := cfg, me, broker;
    }

    /** publishConfirmed: an error unless the broker confirmed. */
    method PublishConfirmed(target: string, msg: Copy, header: Header, task: Task, result: PublishResult)
      returns (failed: bool)
      modifies broker
      ensures failed == !result.Confirmed?
      ensures broker.args == old(broker.args) && broker.now == old(broker.now)
      ensures if (result.Confirmed? || result.Lost?) && target in old(broker.args)
        then broker.nextNo == old(broker.nextNo) + 1
          && var copy := Copy(msg.message, header, task, Ready(target, old(broker.now)));
             broker.copies == old(broker.copies)[old(broker.nextNo) := copy]
        else broker.nextNo == old(broker.nextNo) && broker.copies == old(broker.copies)
    {
      broker.Publish(target, msg.message, header, task, result);
      failed := !result.Confirmed?;
    }

    /** ack: the broker forgets the delivery, unless the ack fails. */
    method AckDelivery(no: nat, ok: bool, ghost s: State)
      requires broker.Shows(s) && me in s.workers && s.workers[me] == Worker(true, Acking(no))
      requires ok ==> Holds(s, me, no)
      modifies broker
      ensures Enabled(cfg, s, Event.Ack(me, ok))
      ensures var s' := Do(cfg, s, Event.Ack(me, ok)); broker.Shows(s') && IsIdle(s', me)
    {
      if ok { broker.Ack(no); }
    }

    /** Nack with requeue: the broker puts the delivery back, unless the nack fails. */
    method NackDelivery(no: nat, ok: bool, ghost s: State)
      requires broker.Shows(s) && me in s.workers && s.workers[me] == Worker(true, Nacking(no))
      requires ok ==> Holds(s, me, no)
      modifies broker
      ensures Enabled(cfg, s, Event.Nack(me, ok))
      ensures var s' := Do(cfg, s, Event.Nack(me, ok)); broker.Shows(s') && IsIdle(s', me)
    {
      if ok { broker.NackRequeue(no, cfg.queue); }
    }

    /** The first half of apply: publish the next attempt or the dead letter. */
    method Republish(no: nat, msg: Copy, attempt: int64, outcome: Outcome, next: Task, result: PublishResult,
        ghost s: State)
      returns (failed: bool)
      requires broker.Shows(s) && me in s.workers && s.workers[me] == Worker(true, Publishing(no, msg, outcome, next))
      requires attempt == AttemptOf(msg.header) && CanTarget(cfg, outcome) && no < s.nextNo && !outcome.action.Done?
      modifies broker
      ensures failed == !result.Confirmed? && Enabled(cfg, s, Event.Publish(me, result))
      ensures var s' := Do(cfg, s, Event.Publish(me, result));
              && broker.Shows(s') && me in s'.workers
              && s'.workers[me] == Worker(true, if failed then Nacking(no) else Acking(no))
              && (Holds(s, me, no) ==> Holds(s', me, no))
    {
      var target: string;
      var header: Header;
      var task: Task;
      if outcome.action.Retry? {
        target := cfg.Topology().RetryQueue(outcome.retryIn);
        header := Int64(Wrap64(attempt + 1));
        task := next;
      } else {
        target := cfg.Topology().deadLetter;
        header := Int64(attempt);
        task := msg.task;
      }
      failed := PublishConfirmed(target, msg, header, task, result);
      TimeStands(cfg, s, Event.Publish(me, result));
      PublishShape(cfg, s, me, result);
    }

    /** Consumer.apply. `next` is the history tag of the next attempt. */
    method Apply(no: nat, msg: Copy, attempt: int64, outcome: Outcome, next: Task, answers: Answers, ghost s: State)
      requires broker.Shows(s) && me in s.workers && s.workers[me].connected
      requires s.workers[me].stage == if outcome.action.Done? then Acking(no) else Publishing(no, msg, outcome, next)
      requires attempt == AttemptOf(msg.header) && CanTarget(cfg, outcome)
      requires no < s.nextNo && (answers.settleOk ==> Holds(s, me, no))
      modifies broker
      ensures var after := Continue(cfg, s, ApplyEvents(s, me, answers));
              after.Some? && broker.Shows(after.value) && IsIdle(after.value, me)
    {
      if outcome.action.Done? {
        AckDelivery(no, answers.settleOk, s);
        AckAlone(cfg, s, me, answers);
        return;
      }
      var failed := Republish(no, msg, attempt, outcome, next, answers.publish, s);
      ghost var s1 := Do(cfg, s, Event.Publish(me, answers.publish));
      if failed {
        NackDelivery(no, answers.settleOk, s1);
      } else {
        AckDelivery(no, answers.settleOk, s1);
      }
      PublishThenSettle(cfg, s, me, answers);
    }

    /** The delivery loop of consumeLoop: each turn names the delivery the broker hands out, if it may, and the answers
        met while handling it. The loop ends with the turns, as it does when the context or the connection ends. */
    method ConsumeLoop(turns: seq<(nat, Env, Answers)>, ghost s0: State)
      returns (ghost s: State, ghost trace: seq<Event>)
      requires cfg.policy.Sound() && Inv(cfg, s0) && broker.Shows(s0)
      requires IsIdle(s0, me)
      modifies broker
      ensures Continue(cfg, s0, trace) == Some(s) && broker.Shows(s) && Inv(cfg, s) && IsIdle(s, me)
      ensures trace == LoopEvents(cfg, s0, me, turns)
    {
      s, trace := s0, [];
      for i := 0 to |turns|
        invariant Continue(cfg, s0, trace) == Some(s) && broker.Shows(s) && Inv(cfg, s)
        invariant IsIdle(s, me) && trace == LoopEvents(cfg, s0, me, turns[..i])
      {
        assert turns[..i + 1][..i] == turns[..i];
        var (no, env, answers) := turns[i];
        if no in broker.copies && broker.copies[no].place.Ready? && broker.copies[no].place.queue == cfg.queue
           && forall k :: k in broker.copies.Keys ==> broker.copies[k].place != Unacked(me)
        {
          ghost var more: seq<Event>;
          s, more := HandleDelivery(no, env, answers, s);
          ContinueConcat(cfg, s0, trace, more);
          trace := trace + more;
        }
      }
      assert turns[..|turns|] == turns;
    }

    /** One delivery: take it, run the handler, apply its outcome. */
    method HandleDelivery(no: nat, env: Env, answers: Answers, ghost s: State)
      returns (ghost s': State, ghost trace: seq<Event>)
      requires cfg.policy.Sound() && Inv(cfg, s) && broker.Shows(s)
      requires IsIdle(s, me) && Enabled(cfg, s, Event.Deliver(me, no))
      modifies broker
      ensures Continue(cfg, s, trace) == Some(s') && broker.Shows(s') && Inv(cfg, s')
      ensures IsIdle(s', me) && trace == DeliveryEvents(cfg, s, me, no, env, answers)
    {
      AnsweredShape(cfg, s, me, no, env);
      AnsweredKeeps(cfg, s, me, no, env);
      AnsweredCanTarget(cfg, s, me, no, env);
      var msg := broker.Deliver(no, me);
      var attempt := AttemptOf(msg.header);
      var outcome := HandlerReport(cfg, msg, env).outcome;
      ghost var s2 := Answered(cfg, s, me, no, env);
      var next := Successor(cfg.policy, msg.task, broker.now);
      Apply(no, msg, attempt, outcome, next, answers, s2);
      trace := DeliveryEvents(cfg, s, me, no, env, answers);
      AnsweredEvents(cfg, s, me, no, env, answers);
      AnsweredContinues(cfg, s, me, no, env, ApplyEvents(s2, me, answers));
      s' := Continue(cfg, s, trace).value;
      ContinueInv(cfg, s, trace);
    }
  }

  lemma {:induction false} ContinueInv(cfg: Config, s: State, events: seq<Event>)
    requires cfg.policy.Sound() && Inv(cfg, s) && Continue(cfg, s, events).Some?
    ensures Inv(cfg, Continue(cfg, s, events).value)
    decreases |events|
  {
    if |events| > 0 {
      InvKept(cfg, s, events[0]);
      ContinueInv(cfg, Do(cfg, s, events[0]), events[1..]);
    }
  }
}
