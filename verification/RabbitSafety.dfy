/** What every step of the RabbitMQ transport keeps, under every interleaving and every fault. */
module RabbitSafety {
  import opened Numbers
  import opened RetryPolicies
  import opened Topologies
  import opened Delivery
  import opened DelayedRetry
  import opened RabbitBroker

  /** The header and the message of a copy say what its task says. */
  ghost predicate WellTagged(l: Ledger, copy: Copy) {
    copy.message == copy.task.message && AttemptOf(copy.header) == copy.task.attempt && copy.task in l.scheduled
  }

  /** The queues of the topology are there once a consumer has connected. */
  ghost predicate TopologyThere(cfg: Config, args: Registry) {
    forall i :: 0 <= i < |cfg.Topology().Declarations()| ==>
      cfg.Topology().Declarations()[i].0 in args
  }

  ghost predicate QueuesInv(cfg: Config, s: State) {
    && Consistent(s.args, cfg.queue)
    && (s.workers != map[] ==> TopologyThere(cfg, s.args))
    && (s.copies != map[] ==> cfg.queue in s.args)
  }

  /** What a consumer remembers of its delivery agrees with the broker's copy, and what it decided is the handler's
      answer. */
  ghost predicate StageFits(cfg: Config, s: State, stage: Stage) {
    match stage
    case Idle => true
    case Working(no, copy) => HeldFits(s, no, copy)
    case Publishing(no, copy, outcome, next) =>
      && HeldFits(s, no, copy)
      && !outcome.action.Done?
      && (outcome.action.Retry? ==>
           && cfg.policy.CanRetry(copy.task.attempt)
           && outcome.retryIn == cfg.policy.Delay(copy.task.attempt)
           && next in s.history.scheduled
           && next.id == copy.task.id && next.message == copy.message && next.attempt == copy.task.attempt + 1
           && next.due <= s.history.now + outcome.retryIn)
    case Acking(no) => no < s.nextNo
    case Nacking(no) => no < s.nextNo
  }

  ghost predicate HeldFits(s: State, no: nat, copy: Copy) {
    && no < s.nextNo
    && WellTagged(s.history, copy) && Called(s.history, copy.task)
    && (no in s.copies ==> s.copies[no].task == copy.task)
  }

  ghost predicate TagsInv(cfg: Config, s: State) {
    && (forall no :: no in s.copies ==> no < s.nextNo && WellTagged(s.history, s.copies[no]))
    && (forall w :: w in s.workers ==> StageFits(cfg, s, s.workers[w].stage))
  }

  /** Out of the retry queues a copy is due, to the millisecond; in one it expires no earlier. */
  ghost predicate TimingFits(cfg: Config, s: State, copy: Copy) {
    match copy.place
    case Unacked(_) => copy.task.due < s.history.now + MILLISECOND
    case Ready(queue, since) =>
      && queue in s.args && since <= s.history.now
      && (queue == cfg.queue ==> copy.task.due < s.history.now + MILLISECOND)
      && (s.args[queue].Delayed? ==>
           s.args[queue].target == cfg.queue
             && copy.task.due < since + s.args[queue].ttlMillis * MILLISECOND + MILLISECOND)
      && (s.args[queue].Durable? ==> queue == cfg.queue || queue == cfg.Topology().deadLetter)
  }

  ghost predicate TimingInv(cfg: Config, s: State) { forall no :: no in s.copies ==> TimingFits(cfg, s, s.copies[no]) }

  /** Each retry queue is ordered by arrival, hence by expiry: all its copies wait the same time. */
  ghost predicate OrderInv(s: State) {
    forall j, k :: j in s.copies && k in s.copies && j < k && SameDelayedQueue(s, j, k) ==>
      s.copies[j].place.since <= s.copies[k].place.since
  }

  predicate SameDelayedQueue(s: State, j: nat, k: nat)
    requires j in s.copies && k in s.copies
  {
    && s.copies[j].place.Ready? && s.copies[k].place.Ready? && s.copies[j].place.queue == s.copies[k].place.queue
    && s.copies[j].place.queue in s.args && s.args[s.copies[j].place.queue].Delayed?
  }

  /** The consumer holding the copy has already secured its successor and is about to acknowledge it. */
  predicate Spent(s: State, no: nat)
    requires no in s.copies
  {
    && s.copies[no].place.Unacked? && s.copies[no].place.worker in s.workers
    && s.workers[s.copies[no].place.worker].stage == Acking(no)
  }

  predicate IsLiveFor(s: State, id: nat, no: nat) { no in s.copies && s.copies[no].task.id == id && !Spent(s, no) }

  ghost predicate HasLiveCopy(s: State, id: nat) { exists no: nat :: IsLiveFor(s, id, no) }

  ghost predicate Covered(s: State, id: nat) { id in s.history.sent || id in s.history.accepted || HasLiveCopy(s, id) }

  ghost predicate NoLossInv(s: State) { forall id: nat :: id < s.history.nextId ==> Covered(s, id) }

  ghost predicate Inv(cfg: Config, s: State) {
    QueuesInv(cfg, s) && TagsInv(cfg, s) && TimingInv(cfg, s) && OrderInv(s) && NoLossInv(s)
      && LedgerInv(cfg.policy, s.history)
  }

  // ---------------------------------------------------------------- publishing

  /** A publish always has a declared queue to go to: nothing panics, and nothing is confirmed and dropped. */
  lemma {:induction false} TargetDeclared(cfg: Config, s: State, w: nat)
    requires cfg.policy.Sound() && QueuesInv(cfg, s) && TagsInv(cfg, s) && LedgerInv(cfg.policy, s.history)
    requires w in s.workers && s.workers[w].stage.Publishing?
    ensures var outcome := s.workers[w].stage.outcome; CanTarget(cfg, outcome) && Target(cfg, outcome) in s.args
    ensures var outcome := s.workers[w].stage.outcome;
            s.args[Target(cfg, outcome)]
            == if outcome.action.Retry? then Delayed(Millis(outcome.retryIn), cfg.queue) else Durable
  {
    var stage := s.workers[w].stage;
    assert StageFits(cfg, s, stage);
    var t := cfg.Topology();
    if stage.outcome.action.Retry? {
      var attempt := stage.copy.task.attempt;
      assert TaskFits(cfg.policy, s.history, stage.copy.task);
      RetryQueueAgrees(cfg.queue, cfg.policy, attempt);
      var i := t.FirstAtLeast(cfg.policy.Delay(attempt), 0);
      assert t.Declarations()[i + 2].0 in s.args;
      assert RetryQueueName(cfg.queue, cfg.policy.Delay(attempt)) in s.args;
    } else {
      assert t.Declarations()[1].0 in s.args;
    }
  }

  /** A retry carries attempt + 1, read back as such, with no overflow; a dead letter keeps its attempt. */
  lemma {:induction false} NewHeaderReadBack(cfg: Config, copy: Copy, outcome: Outcome)
    requires outcome.action.Retry? ==> cfg.policy.CanRetry(AttemptOf(copy.header))
    ensures AttemptOf(NewHeader(copy, outcome)) == AttemptOf(copy.header) + if outcome.action.Retry? then 1 else 0
  {
  }

  // ---------------------------------------------------------------- the step, invariant by invariant

  lemma {:induction false} QueuesKept(cfg: Config, s: State, e: Event)
    requires QueuesInv(cfg, s) && TimingInv(cfg, s) && Enabled(cfg, s, e)
    ensures QueuesInv(cfg, Do(cfg, s, e))
    ensures forall q :: q in s.args ==> q in Do(cfg, s, e).args && Do(cfg, s, e).args[q] == s.args[q]
  {
    match e {
      case Join(_) => DeclareNeverConflicts(s.args, cfg.Topology());
      case Reconnect(_) => DeclareNeverConflicts(s.args, cfg.Topology());
      case Publish(_, _) => assert cfg.Topology().Declarations()[0].0 == cfg.queue;
      case _ =>
    }
  }

  /** Every step is a move of the delayed-retry machine: the transport refines it. */
  lemma {:induction false} MoveAllowed(cfg: Config, s: State, e: Event)
    requires TagsInv(cfg, s) && TimingInv(cfg, s) && Enabled(cfg, s, e)
    ensures Allowed(cfg.policy, s.history, MoveOf(cfg, s, e))
  {
  }

  lemma {:induction false} StageFitsKept(cfg: Config, s: State, s': State, stage: Stage)
    requires StageFits(cfg, s, stage) && Grows(s.history, s'.history) && s.nextNo <= s'.nextNo
    requires forall no :: no in s'.copies && no < s.nextNo ==> no in s.copies && s.copies[no].task == s'.copies[no].task
    ensures StageFits(cfg, s', stage)
  {
  }

  /** Copies keep their numbers and tags; a step adds at most one copy, with the next number. */
  lemma {:induction false} CopiesKept(cfg: Config, s: State, e: Event)
    requires Enabled(cfg, s, e) && (forall no :: no in s.copies ==> no < s.nextNo)
    ensures var s' := Do(cfg, s, e);
            && s.nextNo <= s'.nextNo <= s.nextNo + 1
            && (forall no :: no in s'.copies ==> no < s'.nextNo)
            && (forall no :: no in s'.copies && no < s.nextNo ==>
                  no in s.copies && s.copies[no] == s'.copies[no].(place := s.copies[no].place))
            && (e.Produce? || e.Publish? || s'.nextNo == s.nextNo)
  {
  }

  /** Which steps let time pass, start calls and bring in messages. */
  lemma {:induction false} MoveKinds(cfg: Config, s: State, e: Event)
    requires Enabled(cfg, s, e)
    ensures var m := MoveOf(cfg, s, e);
            && (m.Wait? <==> e.Elapse?) && (m.Submit? <==> e.Produce?)
            && (m.Start? <==> e.Deliver?) && (e.Deliver? ==> m.task == s.copies[e.no].task)
  {
  }

  lemma {:induction false} HistoryGrows(cfg: Config, s: State, e: Event)
    requires Enabled(cfg, s, e)
    ensures Grows(s.history, Do(cfg, s, e).history)
  {
    ApplyGrows(cfg.policy, s.history, MoveOf(cfg, s, e));
  }

  /** Where a copy may go in one step: out to a consumer, or to the tail of the main queue. */
  ghost predicate Moves(cfg: Config, s: State, no: nat, place: Place)
    requires no in s.copies
  {
    var was := s.copies[no].place;
    || place == was
    || (was.Ready? && was.queue == cfg.queue && place.Unacked?)
    || (place == Ready(cfg.queue, s.history.now) && (was.Unacked? || Expired(s, no)))
  }

  lemma {:induction false} CopyMoves(cfg: Config, s: State, e: Event, no: nat)
    requires Enabled(cfg, s, e) && TimingInv(cfg, s) && no in s.copies && no < s.nextNo && no in Do(cfg, s, e).copies
    ensures Moves(cfg, s, no, Do(cfg, s, e).copies[no].place)
  {
  }

  /** How the stage of a consumer may change in one step. */
  ghost predicate StageMoves(cfg: Config, s: State, e: Event, w: nat, stage: Stage)
    requires Enabled(cfg, s, e)
  {
    || stage.Idle?
    || (w in s.workers && stage == s.workers[w].stage)
    || (e.Deliver? && e.w == w && stage == Working(e.no, s.copies[e.no]))
    || (e.Process? && e.w == w && stage == AfterProcess(cfg, s, w, e.env).workers[w].stage)
    || (w in s.workers && s.workers[w].stage.Publishing? && (stage.Acking? || stage.Nacking?)
        && stage.no == s.workers[w].stage.no)
  }

  lemma {:induction false} StageMoved(cfg: Config, s: State, e: Event, w: nat)
    requires Enabled(cfg, s, e) && w in Do(cfg, s, e).workers
    ensures StageMoves(cfg, s, e, w, Do(cfg, s, e).workers[w].stage)
  {
  }

  lemma {:induction false} PublishedTagged(cfg: Config, s: State, w: nat, result: PublishResult)
    requires cfg.policy.Sound() && TagsInv(cfg, s) && Enabled(cfg, s, Publish(w, result))
    requires Enqueues(s, Target(cfg, s.workers[w].stage.outcome), result)
    ensures var s' := AfterPublish(cfg, s, w, result); WellTagged(s.history, s'.copies[s.nextNo])
  {
  }

  lemma {:induction false} CopyTagged(cfg: Config, s: State, e: Event, no: nat)
    requires cfg.policy.Sound() && TagsInv(cfg, s) && Enabled(cfg, s, e) && no in Do(cfg, s, e).copies
    ensures WellTagged(Do(cfg, s, e).history, Do(cfg, s, e).copies[no])
  {
    CopiesKept(cfg, s, e);
    HistoryGrows(cfg, s, e);
    if no < s.nextNo {
      assert WellTagged(s.history, s.copies[no]);
    } else if e.Publish? {
      PublishedTagged(cfg, s, e.w, e.result);
    }
  }

  lemma {:induction false} DeliveredStageFits(cfg: Config, s: State, w: nat, no: nat)
    requires TagsInv(cfg, s) && Enabled(cfg, s, Deliver(w, no))
    ensures StageFits(cfg, Do(cfg, s, Deliver(w, no)), Working(no, s.copies[no]))
  {
  }

  lemma {:induction false} RetryIsScheduled(cfg: Config, s: State, w: nat, env: Env)
    requires Enabled(cfg, s, Process(w, env))
    ensures var copy := s.workers[w].stage.copy; var outcome := HandlerReport(cfg, copy, env).outcome;
            outcome.action.Retry? ==>
              && cfg.policy.CanRetry(AttemptOf(copy.header))
              && outcome.retryIn == cfg.policy.Delay(AttemptOf(copy.header))
              && Successor(cfg.policy, copy.task, s.history.now) in Do(cfg, s, Process(w, env)).history.scheduled
  {
    var copy := s.workers[w].stage.copy;
    ActionMeaning(copy.message, cfg.policy, AttemptOf(copy.header), env);
  }

  lemma {:induction false} ProcessedStageFits(cfg: Config, s: State, w: nat, env: Env)
    requires cfg.policy.Sound() && TagsInv(cfg, s) && Enabled(cfg, s, Process(w, env))
    ensures StageFits(cfg, Do(cfg, s, Process(w, env)), AfterProcess(cfg, s, w, env).workers[w].stage)
  {
    var s' := Do(cfg, s, Process(w, env));
    var stage := s.workers[w].stage;
    assert StageFits(cfg, s, stage);
    HistoryGrows(cfg, s, Process(w, env));
    StageFitsKept(cfg, s, s', stage);
    RetryIsScheduled(cfg, s, w, env);
    assert HeldFits(s', stage.no, stage.copy);
  }

  lemma {:induction false} StageKept(cfg: Config, s: State, e: Event, w: nat)
    requires cfg.policy.Sound() && TagsInv(cfg, s) && Enabled(cfg, s, e) && w in Do(cfg, s, e).workers
    ensures StageFits(cfg, Do(cfg, s, e), Do(cfg, s, e).workers[w].stage)
  {
    var s' := Do(cfg, s, e);
    var stage := s'.workers[w].stage;
    StageMoved(cfg, s, e, w);
    CopiesKept(cfg, s, e);
    if e.Deliver? && e.w == w {
      DeliveredStageFits(cfg, s, w, e.no);
    } else if e.Process? && e.w == w {
      ProcessedStageFits(cfg, s, w, e.env);
    } else if w in s.workers {
      assert StageFits(cfg, s, s.workers[w].stage);
      HistoryGrows(cfg, s, e);
      StageFitsKept(cfg, s, s', s.workers[w].stage);
    }
  }

  lemma {:induction false} TagsKept(cfg: Config, s: State, e: Event)
    requires cfg.policy.Sound() && TagsInv(cfg, s) && Enabled(cfg, s, e)
    ensures TagsInv(cfg, Do(cfg, s, e))
  {
    CopiesKept(cfg, s, e);
    forall no | no in Do(cfg, s, e).copies
      ensures WellTagged(Do(cfg, s, e).history, Do(cfg, s, e).copies[no])
    {
      CopyTagged(cfg, s, e, no);
    }
    forall w | w in Do(cfg, s, e).workers
      ensures StageFits(cfg, Do(cfg, s, e), Do(cfg, s, e).workers[w].stage)
    {
      StageKept(cfg, s, e, w);
    }
  }

  /** Waiting out a TTL, truncated to milliseconds, falls short of the delay by less than a millisecond. */
  lemma {:induction false} TtlCoversDelay(d: int64)
    requires 0 <= d
    ensures d - MILLISECOND < Millis(d) * MILLISECOND <= d
  {
  }

  lemma {:induction false} RetryDelayCovered(p: RetryPolicy, l: Ledger, task: Task)
    requires p.Sound() && LedgerInv(p, l) && task in l.scheduled
    ensures p.Delay(task.attempt) - MILLISECOND < Millis(p.Delay(task.attempt)) * MILLISECOND
  {
  }

  lemma {:induction false} PublishedTiming(cfg: Config, s: State, w: nat, result: PublishResult)
    requires cfg.policy.Sound() && Inv(cfg, s) && Enabled(cfg, s, Publish(w, result))
    requires Enqueues(s, Target(cfg, s.workers[w].stage.outcome), result)
    ensures var s' := Do(cfg, s, Publish(w, result)); TimingFits(cfg, s', s'.copies[s.nextNo])
  {
    var stage := s.workers[w].stage;
    assert StageFits(cfg, s, stage);
    TargetDeclared(cfg, s, w);
    if stage.outcome.action.Retry? {
      RetryDelayCovered(cfg.policy, s.history, stage.copy.task);
    } else {
      NamesAreDistinct(cfg.queue, 0);
    }
  }

  lemma {:induction false} MovedTiming(cfg: Config, s: State, s': State, no: nat, place: Place)
    requires TimingInv(cfg, s) && QueuesInv(cfg, s) && no in s.copies && Moves(cfg, s, no, place)
    requires s.history.now <= s'.history.now
    requires forall q :: q in s.args ==> q in s'.args && s'.args[q] == s.args[q]
    ensures TimingFits(cfg, s', s.copies[no].(place := place))
  {
  }

  lemma {:induction false} TimingKept(cfg: Config, s: State, e: Event)
    requires cfg.policy.Sound() && Inv(cfg, s) && Enabled(cfg, s, e)
    ensures TimingInv(cfg, Do(cfg, s, e))
  {
    var s' := Do(cfg, s, e);
    QueuesKept(cfg, s, e);
    CopiesKept(cfg, s, e);
    HistoryGrows(cfg, s, e);
    forall no | no in s'.copies
      ensures TimingFits(cfg, s', s'.copies[no])
    {
      if no < s.nextNo {
        CopyMoves(cfg, s, e, no);
        MovedTiming(cfg, s, s', no, s'.copies[no].place);
      } else if e.Publish? {
        PublishedTiming(cfg, s, e.w, e.result);
      }
    }
  }

  lemma {:induction false} OrderKept(cfg: Config, s: State, e: Event)
    requires Inv(cfg, s) && Enabled(cfg, s, e)
    ensures OrderInv(Do(cfg, s, e))
  {
    var s' := Do(cfg, s, e);
    QueuesKept(cfg, s, e);
    CopiesKept(cfg, s, e);
    forall j, k | j in s'.copies && k in s'.copies && j < k && SameDelayedQueue(s', j, k)
      ensures s'.copies[j].place.since <= s'.copies[k].place.since
    {
      CopyMoves(cfg, s, e, j);
      assert TimingFits(cfg, s, s.copies[j]);
      if k < s.nextNo {
        CopyMoves(cfg, s, e, k);
        assert TimingFits(cfg, s, s.copies[k]);
        assert SameDelayedQueue(s, j, k);
      } else {
        NewcomersArriveNow(cfg, s, e);
      }
    }
  }

  lemma {:induction false} NewcomersArriveNow(cfg: Config, s: State, e: Event)
    requires Enabled(cfg, s, e) && (forall no :: no in s.copies ==> no < s.nextNo)
    ensures var s' := Do(cfg, s, e);
            s.nextNo in s'.copies ==>
              s'.copies[s.nextNo].place.Ready? && s'.copies[s.nextNo].place.since == s.history.now
  {
  }

  // ---------------------------------------------------------------- no loss

  /** Handling a message to its end, or securing its successor, is what lets its copy be acknowledged. */
  lemma {:induction false} ProcessCovers(cfg: Config, s: State, w: nat, env: Env)
    requires TagsInv(cfg, s) && Enabled(cfg, s, Process(w, env))
    ensures var s' := Do(cfg, s, Process(w, env)); var id := s.workers[w].stage.copy.task.id;
            s'.workers[w].stage.Acking? ==> id in s'.history.sent || id in s'.history.accepted
  {
  }

  lemma {:induction false} PublishCovers(cfg: Config, s: State, w: nat, result: PublishResult)
    requires cfg.policy.Sound() && Inv(cfg, s) && Enabled(cfg, s, Publish(w, result))
    ensures var s' := Do(cfg, s, Publish(w, result));
            s'.workers[w].stage.Acking? ==> HasLiveCopy(s', s.workers[w].stage.copy.task.id)
  {
    var s' := Do(cfg, s, Publish(w, result));
    assert StageFits(cfg, s, s.workers[w].stage);
    TargetDeclared(cfg, s, w);
    if result.Confirmed? {
      assert IsLiveFor(s', s.workers[w].stage.copy.task.id, s.nextNo);
    }
  }

  lemma {:induction false} LiveStays(cfg: Config, s: State, e: Event, no: nat)
    requires Enabled(cfg, s, e) && TagsInv(cfg, s) && no in s.copies && !Spent(s, no)
    ensures no in Do(cfg, s, e).copies && Do(cfg, s, e).copies[no].task == s.copies[no].task
  {
  }

  /** A copy becomes spent only when its consumer has handled it to its end or secured its successor. */
  lemma {:induction false} SpentByProcessOrPublish(cfg: Config, s: State, e: Event, no: nat)
    requires Enabled(cfg, s, e) && TagsInv(cfg, s) && no in s.copies && !Spent(s, no)
    requires no in Do(cfg, s, e).copies && Spent(Do(cfg, s, e), no)
    ensures var w := Do(cfg, s, e).copies[no].place.worker;
            && w in s.workers && (e.Process? || e.Publish?) && e.w == w
            && (s.workers[w].stage.Working? || s.workers[w].stage.Publishing?) && s.workers[w].stage.no == no
  {
    StageMoved(cfg, s, e, Do(cfg, s, e).copies[no].place.worker);
  }

  lemma {:induction false} LiveStaysCovered(cfg: Config, s: State, e: Event, no: nat)
    requires cfg.policy.Sound() && Inv(cfg, s) && Enabled(cfg, s, e) && no in s.copies && !Spent(s, no)
    ensures Covered(Do(cfg, s, e), s.copies[no].task.id)
  {
    var s' := Do(cfg, s, e);
    LiveStays(cfg, s, e, no);
    if Spent(s', no) {
      SpentByProcessOrPublish(cfg, s, e, no);
      assert StageFits(cfg, s, s.workers[e.w].stage);
      if e.Process? {
        ProcessCovers(cfg, s, e.w, e.env);
      } else {
        PublishCovers(cfg, s, e.w, e.result);
      }
    } else {
      assert IsLiveFor(s', s.copies[no].task.id, no);
    }
  }

  lemma {:induction false} NewcomerIsLive(cfg: Config, s: State, e: Event)
    requires Enabled(cfg, s, e) && s.history.nextId < Do(cfg, s, e).history.nextId
    ensures IsLiveFor(Do(cfg, s, e), s.history.nextId, s.nextNo)
    ensures Do(cfg, s, e).history.nextId == s.history.nextId + 1
  {
    MoveKinds(cfg, s, e);
    ApplyChanges(cfg.policy, s.history, MoveOf(cfg, s, e));
  }

  lemma {:induction false} NoLossKept(cfg: Config, s: State, e: Event)
    requires cfg.policy.Sound() && Inv(cfg, s) && Enabled(cfg, s, e)
    ensures NoLossInv(Do(cfg, s, e))
  {
    var s' := Do(cfg, s, e);
    HistoryGrows(cfg, s, e);
    forall id: nat | id < s'.history.nextId
      ensures Covered(s', id)
    {
      if id == s.history.nextId {
        NewcomerIsLive(cfg, s, e);
      } else if HasLiveCopy(s, id) {
        var no: nat :| IsLiveFor(s, id, no);
        LiveStaysCovered(cfg, s, e, no);
      } else {
        assert Covered(s, id);
      }
    }
  }

  // ---------------------------------------------------------------- whole runs

  lemma {:induction false} InvKept(cfg: Config, s: State, e: Event)
    requires cfg.policy.Sound() && Inv(cfg, s) && Enabled(cfg, s, e)
    ensures Inv(cfg, Do(cfg, s, e))
  {
    QueuesKept(cfg, s, e);
    TagsKept(cfg, s, e);
    TimingKept(cfg, s, e);
    OrderKept(cfg, s, e);
    NoLossKept(cfg, s, e);
    MoveAllowed(cfg, s, e);
    ApplyKeepsInv(cfg.policy, s.history, MoveOf(cfg, s, e));
  }

  lemma {:induction false} RunInv(cfg: Config, leftover: Registry, events: seq<Event>)
    requires cfg.policy.Sound() && Consistent(leftover, cfg.queue) && Run(cfg, leftover, events).Some?
    ensures Inv(cfg, Run(cfg, leftover, events).value)
    decreases |events|
  {
    if |events| > 0 {
      RunInv(cfg, leftover, events[..|events| - 1]);
      InvKept(cfg, Run(cfg, leftover, events[..|events| - 1]).value, events[|events| - 1]);
    }
  }

  /** A copy a consumer will still get to, or an operator will find: in the main queue, in a retry queue that
      returns it to the main queue, in the dead-letter queue, or out with a consumer that has not settled it. */
  ghost predicate IsLive(cfg: Config, s: State, no: nat) {
    && no in s.copies && !Spent(s, no)
    && match s.copies[no].place
       case Unacked(_) => true
       case Ready(queue, _) =>
         && queue in s.args
         && (queue == cfg.queue || queue == cfg.Topology().deadLetter
                || (s.args[queue].Delayed? && s.args[queue].target == cfg.queue))
  }

  /** No message is ever lost: whatever fails and whoever crashes, every message accepted into the main queue was sent,
      or its failure was accepted by its callback, or a live copy of it remains. */
  lemma {:induction false} NoMessageIsLost(cfg: Config, leftover: Registry, events: seq<Event>, id: nat)
    requires cfg.policy.Sound() && Consistent(leftover, cfg.queue) && Run(cfg, leftover, events).Some?
    requires id < Run(cfg, leftover, events).value.history.nextId
    ensures var s := Run(cfg, leftover, events).value;
            || id in s.history.sent || id in s.history.accepted
            || exists no :: IsLive(cfg, s, no) && s.copies[no].task.id == id
                 && id in s.history.origins && s.copies[no].message == s.history.origins[id].message
  {
    RunInv(cfg, leftover, events);
    var s := Run(cfg, leftover, events).value;
    assert Covered(s, id);
    if HasLiveCopy(s, id) {
      var no: nat :| IsLiveFor(s, id, no);
      assert TimingFits(cfg, s, s.copies[no]) && WellTagged(s.history, s.copies[no]);
      assert TaskFits(cfg.policy, s.history, s.copies[no].task);
      assert IsLive(cfg, s, no);
    }
  }

  /** Every copy keeps the body its message entered with, and the attempt read from its header is between the
      attempt it entered with and maxAttempts; for a message sent without a header, between 1 and maxAttempts. */
  lemma {:induction false} AttemptAndBodyKept(cfg: Config, leftover: Registry, events: seq<Event>, no: nat)
    requires cfg.policy.Sound() && Consistent(leftover, cfg.queue) && Run(cfg, leftover, events).Some?
    requires no in Run(cfg, leftover, events).value.copies
    ensures var s := Run(cfg, leftover, events).value; var copy := s.copies[no];
            && copy.task.id in s.history.origins
            && var origin := s.history.origins[copy.task.id];
               && copy.message == origin.message
               && 1 <= origin.attempt <= AttemptOf(copy.header) <= Max(origin.attempt, cfg.policy.maxAttempts)
  {
    RunInv(cfg, leftover, events);
    var s := Run(cfg, leftover, events).value;
    assert WellTagged(s.history, s.copies[no]) && TaskFits(cfg.policy, s.history, s.copies[no].task);
  }

  /** The moves a run makes on the delayed-retry machine. */
  ghost function Trace(cfg: Config, leftover: Registry, events: seq<Event>): seq<Move>
    requires Run(cfg, leftover, events).Some?
    decreases |events|
  {
    if |events| == 0 then []
    else
      var before := events[..|events| - 1];
      Trace(cfg, leftover, before) + [MoveOf(cfg, Run(cfg, leftover, before).value, events[|events| - 1])]
  }

  /** Every run is a run of the delayed-retry machine, step by step; RetrySpacing and WaitsAddUp hold of its calls. */
  lemma {:induction false} RabbitRefines(cfg: Config, leftover: Registry, events: seq<Event>)
    requires cfg.policy.Sound() && Consistent(leftover, cfg.queue) && Run(cfg, leftover, events).Some?
    ensures |Trace(cfg, leftover, events)| == |events|
    ensures Replay(cfg.policy, Trace(cfg, leftover, events)) == Some(Run(cfg, leftover, events).value.history)
    decreases |events|
  {
    if |events| > 0 {
      var before := events[..|events| - 1];
      var s := Run(cfg, leftover, before).value;
      RabbitRefines(cfg, leftover, before);
      RunInv(cfg, leftover, before);
      MoveAllowed(cfg, s, events[|events| - 1]);
      var trace := Trace(cfg, leftover, events);
      assert trace[..|trace| - 1] == Trace(cfg, leftover, before);
    }
  }

  /** A call of attempt n + 1 starts no earlier than the moment when the outcome of a call of attempt n was applied,
      plus Delay(n), less one millisecond; the body is the same. */
  lemma {:induction false} RabbitRetrySpacing(cfg: Config, leftover: Registry, events: seq<Event>, c: Call)
    returns (previous: Call, decidedAt: int)
    requires cfg.policy.Sound() && Consistent(leftover, cfg.queue) && Run(cfg, leftover, events).Some?
    requires var l := Run(cfg, leftover, events).value.history;
             c in l.calls && c.task.id in l.origins && c.task != l.origins[c.task.id]
    ensures Follows(cfg.policy, Run(cfg, leftover, events).value.history, previous, decidedAt, c)
  {
    RunInv(cfg, leftover, events);
    previous, decidedAt := RetrySpacing(cfg.policy, Run(cfg, leftover, events).value.history, c);
  }

  lemma {:induction false} TracePrefix(cfg: Config, leftover: Registry, events: seq<Event>, i: nat)
    requires Run(cfg, leftover, events).Some? && i <= |events|
    ensures Run(cfg, leftover, events[..i]).Some? && |Trace(cfg, leftover, events)| == |events|
    ensures Trace(cfg, leftover, events)[..i] == Trace(cfg, leftover, events[..i])
    ensures i < |events| ==>
      && Enabled(cfg, Run(cfg, leftover, events[..i]).value, events[i])
      && Trace(cfg, leftover, events)[i] == MoveOf(cfg, Run(cfg, leftover, events[..i]).value, events[i])
    decreases |events|
  {
    if |events| > 0 {
      var before := events[..|events| - 1];
      TracePrefix(cfg, leftover, before, if i < |events| then i else i - 1);
    }
    if i < |events| {
      assert events[..|events| - 1][..i] == events[..i];
    } else {
      assert events[..i] == events;
    }
  }

  /** The copy delivered at step j is of a later attempt than its message's first. */
  ghost predicate DeliversRetry(cfg: Config, leftover: Registry, events: seq<Event>, j: nat)
    requires Run(cfg, leftover, events).Some? && j < |events|
  {
    && events[j].Deliver? && Run(cfg, leftover, events[..j]).Some?
    && var s := Run(cfg, leftover, events[..j]).value;
       && events[j].no in s.copies
       && var task := s.copies[events[j].no].task;
          task.id in s.history.origins ==> task != s.history.origins[task.id]
  }

  /** Step i is where a handler's answer made the code retry `copy`. */
  ghost predicate AppliesRetry(cfg: Config, s: State, e: Event, copy: Copy) {
    && e.Process? && e.w in s.workers && s.workers[e.w].stage.Working? && s.workers[e.w].stage.copy == copy
    && HandlerReport(cfg, copy, e.env).outcome.action.Retry?
  }

  /** Every delivery of a retry comes after the step that applied the outcome of the attempt before it, by at least the
      delay of that attempt less one millisecond, with the same body. */
  lemma {:induction false} RetryFollowsApply(cfg: Config, leftover: Registry, events: seq<Event>, j: nat)
    returns (i: nat, copy: Copy)
    requires cfg.policy.Sound() && Consistent(leftover, cfg.queue) && Run(cfg, leftover, events).Some?
    requires j < |events| && DeliversRetry(cfg, leftover, events, j)
    ensures i < j && Run(cfg, leftover, events[..i]).Some?
    ensures AppliesRetry(cfg, Run(cfg, leftover, events[..i]).value, events[i], copy)
    ensures var s, s' := Run(cfg, leftover, events[..i]).value, Run(cfg, leftover, events[..j]).value;
            var task := s'.copies[events[j].no].task;
            && task.id == copy.task.id && task.message == copy.task.message && task.attempt == copy.task.attempt + 1
            && s'.history.now > s.history.now + cfg.policy.Delay(copy.task.attempt) - MILLISECOND
  {
    var moves := Trace(cfg, leftover, events);
    RabbitRefines(cfg, leftover, events);
    TracePrefix(cfg, leftover, events, j);
    RabbitRefines(cfg, leftover, events[..j]);
    i := StartFollowsDecision(cfg.policy, moves, j);
    TracePrefix(cfg, leftover, events, i);
    RabbitRefines(cfg, leftover, events[..i]);
    copy := AgainIsProcess(cfg, Run(cfg, leftover, events[..i]).value, events[i]);
  }

  lemma {:induction false} AgainIsProcess(cfg: Config, s: State, e: Event) returns (copy: Copy)
    requires Enabled(cfg, s, e) && MoveOf(cfg, s, e).Again?
    ensures AppliesRetry(cfg, s, e, copy) && MoveOf(cfg, s, e).task == copy.task
  {
    copy := s.workers[e.w].stage.copy;
  }

  /** A publish always has a queue: no reachable state indexes an empty list of retry queues or publishes into
      nothing. */
  lemma {:induction false} PublishNeverMissesItsQueue(cfg: Config, leftover: Registry, events: seq<Event>, w: nat)
    requires cfg.policy.Sound() && Consistent(leftover, cfg.queue) && Run(cfg, leftover, events).Some?
    requires var s := Run(cfg, leftover, events).value; w in s.workers && s.workers[w].stage.Publishing?
    ensures var s := Run(cfg, leftover, events).value; var outcome := s.workers[w].stage.outcome;
            CanTarget(cfg, outcome) && Target(cfg, outcome) in s.args
            && s.args[Target(cfg, outcome)]
               == (if outcome.action.Retry? then Delayed(Millis(outcome.retryIn), cfg.queue) else Durable)
  {
    RunInv(cfg, leftover, events);
    TargetDeclared(cfg, Run(cfg, leftover, events).value, w);
  }
}
