/** The RabbitMQ transport while nothing fails: every message has one copy, one call per attempt and one end. */
module RabbitFaultFree {
  import opened RetryPolicies
  import opened Topologies
  import opened Delivery
  import opened DelayedRetry
  import opened RabbitBroker
  import opened RabbitSafety

  predicate FaultFree(e: Event) {
    match e
    case Publish(_, result) => result.Confirmed?
    case Ack(_, ok) => ok
    case Nack(_, _) => false
    case Drop(_) => false
    case Crash(_) => false
    case _ => true
  }

  ghost predicate FaultFreeRun(cfg: Config, leftover: Registry, events: seq<Event>) {
    && cfg.policy.Sound() && Consistent(leftover, cfg.queue) && Run(cfg, leftover, events).Some?
    && forall i :: 0 <= i < |events| ==> FaultFree(events[i])
  }

  predicate InDeadLetters(cfg: Config, s: State, no: nat)
    requires no in s.copies
  {
    s.copies[no].place.Ready? && s.copies[no].place.queue == cfg.Topology().deadLetter
  }

  // ---------------------------------------------------------------- consumers and their deliveries

  /** Consumers stay connected, and each holds exactly the delivery it is busy with. */
  ghost predicate WorkersInv(s: State) {
    && (forall w :: w in s.workers ==>
          && s.workers[w].connected && !s.workers[w].stage.Nacking?
          && (!s.workers[w].stage.Idle? ==> Holds(s, w, s.workers[w].stage.no)))
    && (forall no :: no in s.copies && s.copies[no].place.Unacked? ==>
          && s.copies[no].place.worker in s.workers
          && !s.workers[s.copies[no].place.worker].stage.Idle?
          && s.workers[s.copies[no].place.worker].stage.no == no)
  }

  lemma {:induction false} WorkerKept(cfg: Config, s: State, e: Event, w: nat)
    requires TagsInv(cfg, s) && WorkersInv(s) && Enabled(cfg, s, e) && FaultFree(e) && w in Do(cfg, s, e).workers
    ensures var s' := Do(cfg, s, e);
            && s'.workers[w].connected && !s'.workers[w].stage.Nacking?
            && (!s'.workers[w].stage.Idle? ==> Holds(s', w, s'.workers[w].stage.no))
  {
    WorkerStaysWell(cfg, s, e, w);
    if !Do(cfg, s, e).workers[w].stage.Idle? { WorkerStillHolds(cfg, s, e, w); }
  }

  lemma {:induction false} WorkerStaysWell(cfg: Config, s: State, e: Event, w: nat)
    requires WorkersInv(s) && Enabled(cfg, s, e) && FaultFree(e) && w in Do(cfg, s, e).workers
    ensures Do(cfg, s, e).workers[w].connected && !Do(cfg, s, e).workers[w].stage.Nacking?
  {
  }

  lemma {:induction false} WorkerStillHolds(cfg: Config, s: State, e: Event, w: nat)
    requires WorkersInv(s) && Enabled(cfg, s, e) && FaultFree(e) && (forall no :: no in s.copies ==> no < s.nextNo)
    requires w in Do(cfg, s, e).workers && !Do(cfg, s, e).workers[w].stage.Idle?
    ensures Holds(Do(cfg, s, e), w, Do(cfg, s, e).workers[w].stage.no)
  {
    StageMoved(cfg, s, e, w);
  }

  /** A consumer stays with a delivery that the broker still counts as out. */
  lemma {:induction false} StaysBusy(cfg: Config, s: State, e: Event, w: nat)
    requires Enabled(cfg, s, e) && FaultFree(e) && w in s.workers && s.workers[w].connected && !s.workers[w].stage.Idle?
    requires s.workers[w].stage.no in Do(cfg, s, e).copies
    ensures var s' := Do(cfg, s, e);
            w in s'.workers && !s'.workers[w].stage.Idle? && s'.workers[w].stage.no == s.workers[w].stage.no
  {
  }

  lemma {:induction false} HolderKept(cfg: Config, s: State, e: Event, no: nat)
    requires TagsInv(cfg, s) && WorkersInv(s) && Enabled(cfg, s, e) && FaultFree(e)
    requires no in Do(cfg, s, e).copies && Do(cfg, s, e).copies[no].place.Unacked?
    ensures var s' := Do(cfg, s, e); var w := s'.copies[no].place.worker;
            w in s'.workers && !s'.workers[w].stage.Idle? && s'.workers[w].stage.no == no
  {
    if no in s.copies && s.copies[no].place.Unacked? {
      UnackedStays(cfg, s, e, no);
      StaysBusy(cfg, s, e, s.copies[no].place.worker);
    } else {
      assert e.Deliver? && e.no == no;
    }
  }

  lemma {:induction false} WorkersKept(cfg: Config, s: State, e: Event)
    requires TagsInv(cfg, s) && WorkersInv(s) && Enabled(cfg, s, e) && FaultFree(e)
    ensures WorkersInv(Do(cfg, s, e))
  {
    var s' := Do(cfg, s, e);
    forall w | w in s'.workers
      ensures s'.workers[w].connected && !s'.workers[w].stage.Nacking?
      ensures !s'.workers[w].stage.Idle? ==> Holds(s', w, s'.workers[w].stage.no)
    {
      WorkerKept(cfg, s, e, w);
    }
    forall no | no in s'.copies && s'.copies[no].place.Unacked?
      ensures s'.copies[no].place.worker in s'.workers && !s'.workers[s'.copies[no].place.worker].stage.Idle?
      ensures s'.workers[s'.copies[no].place.worker].stage.no == no
    {
      HolderKept(cfg, s, e, no);
    }
  }

  // ---------------------------------------------------------------- one live copy, one end

  ghost predicate Unique(s: State) {
    forall j, k ::
      j in s.copies && k in s.copies && !Spent(s, j) && !Spent(s, k) && s.copies[j].task.id == s.copies[k].task.id ==>
        j == k
  }

  /** How a message stands: with a live copy outside the dead letters it has not ended; with one there it is dead;
      with none it was sent or its failure was accepted, not both. */
  ghost predicate OneEnd(cfg: Config, s: State, id: nat) {
    var l := s.history;
    && (id in l.sent || id in l.accepted || id in l.dead ==> id < l.nextId)
    && !(id in l.sent && id in l.accepted)
    && (id in l.sent || id in l.accepted ==> !HasLiveCopy(s, id) && id !in l.dead)
    && (id in l.dead ==> HasLiveCopy(s, id))
    && (forall no: nat :: IsLiveFor(s, id, no) ==> (id in l.dead <==> InDeadLetters(cfg, s, no)))
  }

  ghost predicate EndsInv(cfg: Config, s: State) { forall id: nat :: OneEnd(cfg, s, id) }

  /** An acknowledgement is the only thing that happens to a spent copy. */
  lemma {:induction false} SpentStays(cfg: Config, s: State, e: Event, no: nat)
    requires Enabled(cfg, s, e) && FaultFree(e) && no in s.copies && Spent(s, no) && no in Do(cfg, s, e).copies
    requires no < s.nextNo
    ensures Spent(Do(cfg, s, e), no)
  {
  }

  /** Live copies after a step are live copies before it, or the one copy the step creates. */
  lemma {:induction false} LiveBefore(cfg: Config, s: State, e: Event, no: nat)
    requires TagsInv(cfg, s) && Enabled(cfg, s, e) && FaultFree(e)
    requires var s' := Do(cfg, s, e); no in s'.copies && !Spent(s', no)
    ensures no < s.nextNo ==> no in s.copies && !Spent(s, no) && s.copies[no].task == Do(cfg, s, e).copies[no].task
    ensures no >= s.nextNo ==> no == s.nextNo && (e.Produce? || e.Publish?)
  {
    CopiesKept(cfg, s, e);
    if no < s.nextNo && Spent(s, no) { SpentStays(cfg, s, e, no); }
  }

  /** A confirmed publish leaves its copy in the dead letters exactly when it is a dead letter. */
  lemma {:induction false} PublishedPlace(cfg: Config, s: State, w: nat)
    requires cfg.policy.Sound() && Inv(cfg, s) && Enabled(cfg, s, Publish(w, Confirmed))
    ensures var s' := AfterPublish(cfg, s, w, Confirmed); var outcome := s.workers[w].stage.outcome;
            && Enqueues(s, Target(cfg, outcome), Confirmed)
            && (InDeadLetters(cfg, s', s.nextNo) <==> outcome.action.DeadLetter?)
  {
    var stage := s.workers[w].stage;
    assert StageFits(cfg, s, stage);
    TargetDeclared(cfg, s, w);
    NamesAreDistinct(cfg.queue, stage.outcome.retryIn);
    assert s.args[Target(cfg, stage.outcome)].Durable? <==> stage.outcome.action.DeadLetter?;
  }

  lemma {:induction false} PublishMove(cfg: Config, s: State, w: nat)
    requires cfg.policy.Sound() && Inv(cfg, s) && Enabled(cfg, s, Publish(w, Confirmed))
    ensures var stage := s.workers[w].stage;
            MoveOf(cfg, s, Publish(w, Confirmed))
            == if stage.outcome.action.DeadLetter? then Finish(stage.copy.task, EndDead) else Stutter
  {
    TargetDeclared(cfg, s, w);
  }

  /** A confirmed publish replaces the live copy its consumer holds by a new one. */
  lemma {:induction false} PublishedCopies(cfg: Config, s: State, w: nat)
    requires cfg.policy.Sound() && Inv(cfg, s) && WorkersInv(s) && Enabled(cfg, s, Publish(w, Confirmed))
    ensures var s' := AfterPublish(cfg, s, w, Confirmed); var stage := s.workers[w].stage;
            && IsLiveFor(s, stage.copy.task.id, stage.no)
            && stage.no in s'.copies && Spent(s', stage.no)
            && IsLiveFor(s', stage.copy.task.id, s.nextNo)
            && s'.copies.Keys == s.copies.Keys + {s.nextNo}
  {
    assert StageFits(cfg, s, s.workers[w].stage);
    PublishedPlace(cfg, s, w);
  }

  lemma {:induction false} PublishEffects(cfg: Config, s: State, w: nat)
    requires Enabled(cfg, s, Publish(w, Confirmed))
    ensures var s' := Do(cfg, s, Publish(w, Confirmed)); var after := AfterPublish(cfg, s, w, Confirmed);
            && s'.copies == after.copies && s'.workers == after.workers
            && forall no :: no in after.copies ==> (InDeadLetters(cfg, s', no) <==> InDeadLetters(cfg, after, no))
  {
  }

  lemma {:induction false} PublishHistory(cfg: Config, s: State, w: nat)
    requires cfg.policy.Sound() && Inv(cfg, s) && Enabled(cfg, s, Publish(w, Confirmed))
    ensures var stage := s.workers[w].stage;
            Do(cfg, s, Publish(w, Confirmed)).history
            == if stage.outcome.action.DeadLetter?
               then s.history.(dead := s.history.dead + {stage.copy.task.id})
               else s.history
  {
    PublishMove(cfg, s, w);
  }

  lemma {:induction false} PublishReplaces(cfg: Config, s: State, w: nat)
    requires cfg.policy.Sound() && Inv(cfg, s) && WorkersInv(s) && Enabled(cfg, s, Publish(w, Confirmed))
    ensures var s' := Do(cfg, s, Publish(w, Confirmed)); var stage := s.workers[w].stage;
            && IsLiveFor(s, stage.copy.task.id, stage.no)
            && stage.no in s'.copies && Spent(s', stage.no)
            && IsLiveFor(s', stage.copy.task.id, s.nextNo)
            && s'.copies.Keys == s.copies.Keys + {s.nextNo}
            && (InDeadLetters(cfg, s', s.nextNo) <==> stage.outcome.action.DeadLetter?)
            && s'.history == (if stage.outcome.action.DeadLetter?
                              then s.history.(dead := s.history.dead + {stage.copy.task.id})
                              else s.history)
  {
    PublishedCopies(cfg, s, w);
    PublishedPlace(cfg, s, w);
    PublishHistory(cfg, s, w);
    PublishEffects(cfg, s, w);
  }

  lemma {:induction false} IdsKnown(cfg: Config, s: State, no: nat)
    requires Inv(cfg, s) && no in s.copies
    ensures s.copies[no].task.id < s.history.nextId
  {
  }

  lemma {:induction false} UniqueKept(cfg: Config, s: State, e: Event)
    requires cfg.policy.Sound() && Inv(cfg, s) && WorkersInv(s) && Unique(s) && Enabled(cfg, s, e) && FaultFree(e)
    ensures Unique(Do(cfg, s, e))
  {
    var s' := Do(cfg, s, e);
    forall j, k | j in s'.copies && k in s'.copies && !Spent(s', j) && !Spent(s', k)
      && s'.copies[j].task.id == s'.copies[k].task.id
      ensures j == k
    {
      LiveBefore(cfg, s, e, j);
      LiveBefore(cfg, s, e, k);
      if e.Publish? { PublishReplaces(cfg, s, e.w); }
      if j in s.copies { IdsKnown(cfg, s, j); }
      if k in s.copies { IdsKnown(cfg, s, k); }
    }
  }

  /** A live copy stays live and stays in or out of the dead letters, unless its consumer ends it or replaces it. */
  lemma {:induction false} LiveAfter(cfg: Config, s: State, e: Event, no: nat)
    requires cfg.policy.Sound() && Inv(cfg, s) && WorkersInv(s) && Enabled(cfg, s, e) && FaultFree(e)
    requires no in s.copies && !Spent(s, no)
    ensures var s' := Do(cfg, s, e);
            && no in s'.copies && s'.copies[no].task == s.copies[no].task
            && (InDeadLetters(cfg, s', no) <==> InDeadLetters(cfg, s, no))
            && (Spent(s', no) ==>
                 (e.Process? || e.Publish?) && e.w in s.workers && !s.workers[e.w].stage.Idle?
                   && s.workers[e.w].stage.no == no)
  {
    LiveStays(cfg, s, e, no);
    if Spent(Do(cfg, s, e), no) { SpentByProcessOrPublish(cfg, s, e, no); }
    CopyMoves(cfg, s, e, no);
    assert TimingFits(cfg, s, s.copies[no]);
    NamesAreDistinct(cfg.queue, 0);
  }

  /** The step that settles a delivery: its message reaches its end, or moves on to its next copy. */
  predicate Settles(cfg: Config, s: State, e: Event) {
    e.Publish? || (e.Process? && e.w in s.workers && s.workers[e.w].stage.Working?
                   && HandlerReport(cfg, s.workers[e.w].stage.copy, e.env).outcome.action.Done?)
  }

  /** A handler call is one move: it ends the message, schedules its next attempt, or leaves a dead letter to
      publish. */
  lemma {:induction false} ProcessMove(cfg: Config, s: State, w: nat, env: Env)
    requires Enabled(cfg, s, Process(w, env))
    ensures var task := s.workers[w].stage.copy.task; var r := HandlerReport(cfg, s.workers[w].stage.copy, env);
            MoveOf(cfg, s, Process(w, env))
            == if r.outcome.action.Done? then Finish(task, if r.IsSent() then EndSent else EndAccepted)
               else if r.outcome.action.Retry? then Again(task) else Stutter
  {
  }

  lemma {:induction false} EndsSettled(cfg: Config, s: State, e: Event)
    requires Enabled(cfg, s, e) && !Settles(cfg, s, e)
    ensures var l, l' := s.history, Do(cfg, s, e).history;
            l'.sent == l.sent && l'.accepted == l.accepted && l'.dead == l.dead && l.nextId <= l'.nextId
  {
    if e.Process? { ProcessMove(cfg, s, e.w, e.env); }
  }

  lemma {:induction false} OneEndKeptQuietly(cfg: Config, s: State, e: Event, id: nat)
    requires cfg.policy.Sound() && Inv(cfg, s) && WorkersInv(s) && Enabled(cfg, s, e) && FaultFree(e)
    requires !Settles(cfg, s, e)
    requires OneEnd(cfg, s, id)
    ensures OneEnd(cfg, Do(cfg, s, e), id)
  {
    var s' := Do(cfg, s, e);
    EndsSettled(cfg, s, e);
    forall no: nat | IsLiveFor(s', id, no)
      ensures id in s'.history.dead <==> InDeadLetters(cfg, s', no)
      ensures id in s'.history.sent || id in s'.history.accepted ==> false
    {
      LiveBefore(cfg, s, e, no);
      if no in s.copies {
        LiveAfter(cfg, s, e, no);
        assert IsLiveFor(s, id, no);
      } else {
        NamesAreDistinct(cfg.queue, 0);
      }
    }
    if HasLiveCopy(s, id) {
      var no: nat :| IsLiveFor(s, id, no);
      LiveAfter(cfg, s, e, no);
      assert IsLiveFor(s', id, no);
    }
  }

  lemma {:induction false} ProcessRecordsOneEnd(cfg: Config, s: State, w: nat, env: Env)
    requires Enabled(cfg, s, Process(w, env)) && Settles(cfg, s, Process(w, env))
    ensures var l' := Do(cfg, s, Process(w, env)).history; var id := s.workers[w].stage.copy.task.id;
            l' == if HandlerReport(cfg, s.workers[w].stage.copy, env).IsSent()
                  then s.history.(sent := s.history.sent + {id}) else s.history.(accepted := s.history.accepted + {id})
  {
  }

  /** Settling a delivery spends its copy and no other. */
  lemma {:induction false} SettlingSpends(cfg: Config, s: State, e: Event)
    requires TagsInv(cfg, s) && WorkersInv(s) && Enabled(cfg, s, e) && FaultFree(e) && Settles(cfg, s, e)
    ensures var s' := Do(cfg, s, e); var stage := s.workers[e.w].stage;
            && IsLiveFor(s, stage.copy.task.id, stage.no) && s.copies[stage.no].place == Unacked(e.w)
            && forall no :: no in s.copies ==>
                 no in s'.copies && s'.copies[no] == s.copies[no] && (Spent(s', no) <==> Spent(s, no) || no == stage.no)
  {
    assert StageFits(cfg, s, s.workers[e.w].stage);
  }

  lemma {:induction false} OneEndAtProcess(cfg: Config, s: State, w: nat, env: Env, id: nat)
    requires cfg.policy.Sound() && Inv(cfg, s) && WorkersInv(s) && Unique(s) && OneEnd(cfg, s, id)
    requires Enabled(cfg, s, Process(w, env)) && Settles(cfg, s, Process(w, env))
    ensures OneEnd(cfg, Do(cfg, s, Process(w, env)), id)
  {
    var s' := Do(cfg, s, Process(w, env));
    var stage := s.workers[w].stage;
    ProcessRecordsOneEnd(cfg, s, w, env);
    SettlingSpends(cfg, s, Process(w, env));
    IdsKnown(cfg, s, stage.no);
    if id == stage.copy.task.id {
      assert !InDeadLetters(cfg, s, stage.no);
    } else if HasLiveCopy(s, id) {
      var no: nat :| IsLiveFor(s, id, no);
      assert IsLiveFor(s', id, no);
    }
    forall no: nat | IsLiveFor(s', id, no)
      ensures IsLiveFor(s, id, no) && no != stage.no
    {
    }
  }

  /** The live copies of a message after a publish. */
  lemma {:induction false} LiveAtPublish(cfg: Config, s: State, w: nat, id: nat, no: nat)
    requires cfg.policy.Sound() && Inv(cfg, s) && WorkersInv(s) && Enabled(cfg, s, Publish(w, Confirmed))
    ensures var s' := Do(cfg, s, Publish(w, Confirmed)); var stage := s.workers[w].stage;
            && (IsLiveFor(s', id, no)
                <==> (no == s.nextNo && id == stage.copy.task.id) || (IsLiveFor(s, id, no) && no != stage.no))
            && (no in s.copies ==> no in s'.copies && s'.copies[no] == s.copies[no])
  {
    PublishReplaces(cfg, s, w);
    SettlingSpends(cfg, s, Publish(w, Confirmed));
    CopiesKept(cfg, s, Publish(w, Confirmed));
  }

  lemma {:induction false} OneEndOfPublished(cfg: Config, s: State, w: nat)
    requires cfg.policy.Sound() && Inv(cfg, s) && WorkersInv(s) && Unique(s)
    requires Enabled(cfg, s, Publish(w, Confirmed)) && OneEnd(cfg, s, s.workers[w].stage.copy.task.id)
    ensures OneEnd(cfg, Do(cfg, s, Publish(w, Confirmed)), s.workers[w].stage.copy.task.id)
  {
    var s' := Do(cfg, s, Publish(w, Confirmed));
    var stage := s.workers[w].stage;
    var id := stage.copy.task.id;
    PublishReplaces(cfg, s, w);
    IdsKnown(cfg, s, stage.no);
    assert !InDeadLetters(cfg, s, stage.no) && IsLiveFor(s', id, s.nextNo);
    forall no: nat | IsLiveFor(s', id, no) ensures no == s.nextNo { LiveAtPublish(cfg, s, w, id, no); }
  }

  /** The live copies of the other messages are those they were. */
  lemma {:induction false} OtherLives(cfg: Config, s: State, w: nat, id: nat)
    requires cfg.policy.Sound() && Inv(cfg, s) && WorkersInv(s)
    requires Enabled(cfg, s, Publish(w, Confirmed)) && id != s.workers[w].stage.copy.task.id
    ensures var s' := Do(cfg, s, Publish(w, Confirmed));
            forall no: nat ::
              && (IsLiveFor(s', id, no) <==> IsLiveFor(s, id, no))
              && (IsLiveFor(s, id, no) ==> no in s'.copies && s'.copies[no] == s.copies[no])
  {
    var s' := Do(cfg, s, Publish(w, Confirmed));
    forall no: nat
      ensures IsLiveFor(s', id, no) <==> IsLiveFor(s, id, no)
      ensures IsLiveFor(s, id, no) ==> no in s'.copies && s'.copies[no] == s.copies[no]
    {
      LiveAtPublish(cfg, s, w, id, no);
      PublishedHeld(cfg, s, w);
    }
  }

  lemma {:induction false} PublishedHeld(cfg: Config, s: State, w: nat)
    requires TagsInv(cfg, s) && Enabled(cfg, s, Publish(w, Confirmed)) && s.workers[w].stage.no in s.copies
    ensures s.copies[s.workers[w].stage.no].task.id == s.workers[w].stage.copy.task.id
  {
    assert StageFits(cfg, s, s.workers[w].stage);
  }

  lemma {:induction false} OneEndFollows(cfg: Config, s: State, s': State, id: nat)
    requires OneEnd(cfg, s, id) && s.history.nextId == s'.history.nextId
    requires id in s.history.sent <==> id in s'.history.sent
    requires id in s.history.accepted <==> id in s'.history.accepted
    requires id in s.history.dead <==> id in s'.history.dead
    requires forall no: nat ::
               && (IsLiveFor(s', id, no) <==> IsLiveFor(s, id, no))
               && (IsLiveFor(s, id, no) ==> no in s'.copies && s'.copies[no] == s.copies[no])
    ensures OneEnd(cfg, s', id)
  {
    forall no: nat | IsLiveFor(s', id, no) ensures InDeadLetters(cfg, s', no) <==> InDeadLetters(cfg, s, no) {
      assert IsLiveFor(s, id, no);
    }
    if HasLiveCopy(s, id) {
      var no: nat :| IsLiveFor(s, id, no);
      assert IsLiveFor(s', id, no);
    }
  }

  lemma {:induction false} OneEndOfOther(cfg: Config, s: State, w: nat, id: nat)
    requires cfg.policy.Sound() && Inv(cfg, s) && WorkersInv(s) && OneEnd(cfg, s, id)
    requires Enabled(cfg, s, Publish(w, Confirmed)) && id != s.workers[w].stage.copy.task.id
    ensures OneEnd(cfg, Do(cfg, s, Publish(w, Confirmed)), id)
  {
    OtherLives(cfg, s, w, id);
    PublishHistory(cfg, s, w);
    OneEndFollows(cfg, s, Do(cfg, s, Publish(w, Confirmed)), id);
  }

  lemma {:induction false} OneEndAtPublish(cfg: Config, s: State, w: nat, id: nat)
    requires cfg.policy.Sound() && Inv(cfg, s) && WorkersInv(s) && Unique(s) && OneEnd(cfg, s, id)
    requires Enabled(cfg, s, Publish(w, Confirmed))
    ensures OneEnd(cfg, Do(cfg, s, Publish(w, Confirmed)), id)
  {
    if id == s.workers[w].stage.copy.task.id { OneEndOfPublished(cfg, s, w); } else { OneEndOfOther(cfg, s, w, id); }
  }

  lemma {:induction false} EndsKept(cfg: Config, s: State, e: Event)
    requires cfg.policy.Sound() && Inv(cfg, s) && WorkersInv(s) && Unique(s) && EndsInv(cfg, s) && Enabled(cfg, s, e)
    requires FaultFree(e)
    ensures EndsInv(cfg, Do(cfg, s, e))
  {
    forall id: nat
      ensures OneEnd(cfg, Do(cfg, s, e), id)
    {
      assert OneEnd(cfg, s, id);
      if !Settles(cfg, s, e) {
        OneEndKeptQuietly(cfg, s, e, id);
      } else if e.Publish? {
        OneEndAtPublish(cfg, s, e.w, id);
      } else {
        OneEndAtProcess(cfg, s, e.w, e.env, id);
      }
    }
  }

  // ---------------------------------------------------------------- one call per attempt, one notice

  ghost predicate OneCallPerAttempt(l: Ledger) {
    forall c, d :: c in l.calls && d in l.calls && c.task.id == d.task.id && c.task.attempt == d.task.attempt ==> c == d
  }

  /** The call is no later attempt than the live copy of its message: at most its attempt while a consumer holds the
      copy or it is dead, below it while the copy waits. */
  ghost predicate CallFits(cfg: Config, s: State, no: nat, c: Call)
    requires no in s.copies
  {
    && c.task.attempt <= s.copies[no].task.attempt
    && (s.copies[no].place.Ready? && !InDeadLetters(cfg, s, no) ==> c.task.attempt < s.copies[no].task.attempt)
  }

  ghost predicate CallsInv(cfg: Config, s: State) {
    && OneCallPerAttempt(s.history)
    && (forall no, c :: no in s.copies && !Spent(s, no) && c in s.history.calls && c.task.id == s.copies[no].task.id ==>
          CallFits(cfg, s, no, c))
  }

  lemma {:induction false} CallsChange(cfg: Config, s: State, e: Event)
    requires Enabled(cfg, s, e)
    ensures Do(cfg, s, e).history.calls
            == if e.Deliver? then s.history.calls + {Call(s.copies[e.no].task, s.history.now)} else s.history.calls
  {
    MoveKinds(cfg, s, e);
    ApplyChanges(cfg.policy, s.history, MoveOf(cfg, s, e));
  }

  lemma {:induction false} DeliveredIsLive(cfg: Config, s: State, w: nat, no: nat)
    requires Enabled(cfg, s, Deliver(w, no))
    ensures !Spent(s, no) && !InDeadLetters(cfg, s, no)
  {
  }

  lemma {:induction false} OldCallFits(cfg: Config, s: State, e: Event, no: nat, c: Call)
    requires cfg.policy.Sound() && Inv(cfg, s) && WorkersInv(s) && Enabled(cfg, s, e) && FaultFree(e)
    requires no in s.copies && !Spent(s, no) && no in Do(cfg, s, e).copies && CallFits(cfg, s, no, c)
    ensures CallFits(cfg, Do(cfg, s, e), no, c)
  {
    LiveAfter(cfg, s, e, no);
    CopyMoves(cfg, s, e, no);
    UnackedStays(cfg, s, e, no);
  }

  lemma {:induction false} NewCopyFits(cfg: Config, s: State, e: Event, no: nat, c: Call)
    requires cfg.policy.Sound() && Inv(cfg, s) && WorkersInv(s) && CallsInv(cfg, s) && Enabled(cfg, s, e)
    requires FaultFree(e)
    requires no == s.nextNo && no in Do(cfg, s, e).copies && c in s.history.calls
    requires c.task.id == Do(cfg, s, e).copies[no].task.id
    ensures CallFits(cfg, Do(cfg, s, e), no, c)
  {
    CopiesKept(cfg, s, e);
    assert TaskFits(cfg.policy, s.history, c.task);
    if e.Publish? {
      PublishReplaces(cfg, s, e.w);
      assert StageFits(cfg, s, s.workers[e.w].stage);
      assert CallFits(cfg, s, s.workers[e.w].stage.no, c);
    }
  }

  lemma {:induction false} CallsStayUnique(cfg: Config, s: State, e: Event)
    requires cfg.policy.Sound() && Inv(cfg, s) && WorkersInv(s) && CallsInv(cfg, s)
    requires Enabled(cfg, s, e) && FaultFree(e)
    ensures OneCallPerAttempt(Do(cfg, s, e).history)
  {
    CallsChange(cfg, s, e);
    if e.Deliver? {
      DeliveredIsLive(cfg, s, e.w, e.no);
      forall c | c in s.history.calls && c.task.id == s.copies[e.no].task.id
        ensures c.task.attempt < s.copies[e.no].task.attempt
      {
        assert CallFits(cfg, s, e.no, c);
      }
    }
  }

  lemma {:induction false} CallsKept(cfg: Config, s: State, e: Event)
    requires cfg.policy.Sound() && Inv(cfg, s) && WorkersInv(s) && Unique(s) && CallsInv(cfg, s) && Enabled(cfg, s, e)
    requires FaultFree(e)
    ensures CallsInv(cfg, Do(cfg, s, e))
  {
    var s' := Do(cfg, s, e);
    CallsChange(cfg, s, e);
    CallsStayUnique(cfg, s, e);
    if e.Deliver? { DeliveredIsLive(cfg, s, e.w, e.no); }
    forall no, c | no in s'.copies && !Spent(s', no) && c in s'.history.calls && c.task.id == s'.copies[no].task.id
      ensures CallFits(cfg, s', no, c)
    {
      LiveBefore(cfg, s, e, no);
      if no >= s.nextNo {
        NewCopyFits(cfg, s, e, no, c);
      } else if c in s.history.calls {
        OldCallFits(cfg, s, e, no, c);
      } else {
        assert no == e.no && s'.copies[no].place.Unacked?;
      }
    }
  }

  /** Without faults a delivery never goes back to a queue. */
  lemma {:induction false} UnackedStays(cfg: Config, s: State, e: Event, no: nat)
    requires Enabled(cfg, s, e) && FaultFree(e) && no in s.copies && no < s.nextNo && no in Do(cfg, s, e).copies
    ensures s.copies[no].place.Unacked? ==> Do(cfg, s, e).copies[no].place == s.copies[no].place
  {
  }

  /** The message is about to become a dead letter. */
  predicate Condemned(s: State, id: nat, no: nat) {
    && IsLiveFor(s, id, no) && s.copies[no].place.Unacked? && s.copies[no].place.worker in s.workers
    && s.workers[s.copies[no].place.worker].stage.Publishing?
    && s.workers[s.copies[no].place.worker].stage.outcome.action.DeadLetter?
  }

  ghost predicate Concluded(s: State, n: Notice) {
    match n.status
    case Sent => n.id in s.history.sent
    case Failed => n.id in s.history.accepted || n.id in s.history.dead || exists no: nat :: Condemned(s, n.id, no)
  }

  /** A callback has fired at most once for a message, with its final outcome, on its last attempt. */
  ghost predicate NoticesInv(s: State) {
    && (forall n :: n in s.notices ==> Concluded(s, n))
    && (forall n, m :: n in s.notices && m in s.notices && n.id == m.id ==> n == m)
    && (forall n, c :: n in s.notices && c in s.history.calls && c.task.id == n.id ==> c.task.attempt <= n.attempt)
  }

  /** Once a callback has fired, the message's live copy, if any, is dead or about to be. */
  lemma {:induction false} ConcludedIsClosed(cfg: Config, s: State, n: Notice)
    requires Unique(s) && EndsInv(cfg, s) && Concluded(s, n)
    ensures forall no: nat :: IsLiveFor(s, n.id, no) ==> InDeadLetters(cfg, s, no) || Condemned(s, n.id, no)
  {
    assert OneEnd(cfg, s, n.id);
    forall no: nat | IsLiveFor(s, n.id, no)
      ensures InDeadLetters(cfg, s, no) || Condemned(s, n.id, no)
    {
      if n.id !in s.history.dead {
        var k: nat :| Condemned(s, n.id, k);
        assert k == no;
      }
    }
  }

  /** The callbacks one call fires: at most one, never before the final outcome, with its status. */
  lemma {:induction false} NoticesOfReport(copy: Copy, p: RetryPolicy, env: Env)
    requires AttemptOf(copy.header) == copy.task.attempt
    ensures var r := Handle(copy.message, p, AttemptOf(copy.header), env);
            && (forall n :: n in NoticesOf(copy, r) ==>
                  && n.id == copy.task.id && n.attempt == copy.task.attempt
                  && !r.outcome.action.Retry? && (n.status.Sent? <==> r.IsSent()))
            && (forall n, m :: n in NoticesOf(copy, r) && m in NoticesOf(copy, r) ==> n == m)
  {
    CallbacksMatchOutcome(copy.message, p, AttemptOf(copy.header), env);
  }

  lemma {:induction false} CondemnedAfter(cfg: Config, s: State, e: Event, id: nat, no: nat)
    requires cfg.policy.Sound() && Inv(cfg, s) && WorkersInv(s) && Enabled(cfg, s, e) && FaultFree(e)
    requires Condemned(s, id, no)
    ensures Condemned(Do(cfg, s, e), id, no) || id in Do(cfg, s, e).history.dead
  {
    if e.Publish? && e.w == s.copies[no].place.worker {
      CondemnedPublished(cfg, s, id, no);
    } else {
      CondemnedHeld(cfg, s, e, id, no);
    }
  }

  lemma {:induction false} CondemnedPublished(cfg: Config, s: State, id: nat, no: nat)
    requires cfg.policy.Sound() && Inv(cfg, s) && WorkersInv(s) && Condemned(s, id, no)
    requires Enabled(cfg, s, Publish(s.copies[no].place.worker, Confirmed))
    ensures id in Do(cfg, s, Publish(s.copies[no].place.worker, Confirmed)).history.dead
  {
    var w := s.copies[no].place.worker;
    PublishReplaces(cfg, s, w);
    assert StageFits(cfg, s, s.workers[w].stage);
  }

  lemma {:induction false} CondemnedHeld(cfg: Config, s: State, e: Event, id: nat, no: nat)
    requires cfg.policy.Sound() && Inv(cfg, s) && WorkersInv(s) && Enabled(cfg, s, e) && FaultFree(e)
    requires Condemned(s, id, no) && !(e.Publish? && e.w == s.copies[no].place.worker)
    ensures Condemned(Do(cfg, s, e), id, no)
  {
    LiveAfter(cfg, s, e, no);
    UnackedStays(cfg, s, e, no);
    StageStands(cfg, s, e, s.copies[no].place.worker);
  }

  lemma {:induction false} StageStands(cfg: Config, s: State, e: Event, w: nat)
    requires Enabled(cfg, s, e) && FaultFree(e) && w in s.workers && s.workers[w].stage.Publishing?
    requires !(e.Publish? && e.w == w)
    ensures w in Do(cfg, s, e).workers && Do(cfg, s, e).workers[w].stage == s.workers[w].stage
  {
  }

  lemma {:induction false} ConcludedStays(cfg: Config, s: State, e: Event, n: Notice)
    requires cfg.policy.Sound() && Inv(cfg, s) && WorkersInv(s) && Enabled(cfg, s, e) && FaultFree(e) && Concluded(s, n)
    ensures Concluded(Do(cfg, s, e), n)
  {
    HistoryGrows(cfg, s, e);
    if n.status.Failed? && n.id !in s.history.accepted && n.id !in s.history.dead {
      var k: nat :| Condemned(s, n.id, k);
      CondemnedAfter(cfg, s, e, n.id, k);
    }
  }

  lemma {:induction false} NewNoticeConcluded(cfg: Config, s: State, w: nat, env: Env, n: Notice)
    requires cfg.policy.Sound() && Inv(cfg, s) && WorkersInv(s) && Enabled(cfg, s, Process(w, env))
    requires n in NoticesOf(s.workers[w].stage.copy, HandlerReport(cfg, s.workers[w].stage.copy, env))
    ensures Concluded(Do(cfg, s, Process(w, env)), n)
  {
    var stage := s.workers[w].stage;
    assert StageFits(cfg, s, stage);
    NoticesOfReport(stage.copy, cfg.policy, env);
    if Settles(cfg, s, Process(w, env)) {
      ProcessRecordsOneEnd(cfg, s, w, env);
    } else {
      assert Condemned(Do(cfg, s, Process(w, env)), n.id, stage.no);
    }
  }

  /** A message with a waiting copy or one being handled has had no callback. */
  lemma {:induction false} BusyHasNoNotice(cfg: Config, s: State, e: Event, n: Notice)
    requires Inv(cfg, s) && WorkersInv(s) && Unique(s) && EndsInv(cfg, s) && NoticesInv(s) && n in s.notices
    requires Enabled(cfg, s, e) && FaultFree(e)
    ensures e.Deliver? ==> n.id != s.copies[e.no].task.id
    ensures e.Process? ==> n.id != s.workers[e.w].stage.copy.task.id
  {
    ConcludedIsClosed(cfg, s, n);
    if e.Deliver? { DeliveredIsLive(cfg, s, e.w, e.no); }
    if e.Process? {
      assert StageFits(cfg, s, s.workers[e.w].stage);
      assert IsLiveFor(s, s.workers[e.w].stage.copy.task.id, s.workers[e.w].stage.no);
    }
  }

  lemma {:induction false} NoticesChange(cfg: Config, s: State, e: Event)
    requires Enabled(cfg, s, e)
    ensures Do(cfg, s, e).notices == if e.Process?
              then var copy := s.workers[e.w].stage.copy; s.notices + NoticesOf(copy, HandlerReport(cfg, copy, e.env))
              else s.notices
  {
  }

  lemma {:induction false} NewNoticeIsLast(cfg: Config, s: State, w: nat, env: Env, n: Notice, c: Call)
    requires Inv(cfg, s) && WorkersInv(s) && CallsInv(cfg, s) && Enabled(cfg, s, Process(w, env))
    requires n in NoticesOf(s.workers[w].stage.copy, HandlerReport(cfg, s.workers[w].stage.copy, env))
    requires c in s.history.calls && c.task.id == n.id
    ensures c.task.attempt <= n.attempt
  {
    var stage := s.workers[w].stage;
    assert StageFits(cfg, s, stage);
    assert CallFits(cfg, s, stage.no, c);
  }

  lemma {:induction false} NoticesStayConcluded(cfg: Config, s: State, e: Event)
    requires cfg.policy.Sound() && Inv(cfg, s) && WorkersInv(s) && NoticesInv(s) && Enabled(cfg, s, e) && FaultFree(e)
    ensures forall n :: n in Do(cfg, s, e).notices ==> Concluded(Do(cfg, s, e), n)
  {
    NoticesChange(cfg, s, e);
    forall n | n in Do(cfg, s, e).notices
      ensures Concluded(Do(cfg, s, e), n)
    {
      if n in s.notices { ConcludedStays(cfg, s, e, n); } else { NewNoticeConcluded(cfg, s, e.w, e.env, n); }
    }
  }

  lemma {:induction false} NoticesStayOne(cfg: Config, s: State, e: Event)
    requires Inv(cfg, s) && WorkersInv(s) && Unique(s) && EndsInv(cfg, s) && NoticesInv(s)
    requires Enabled(cfg, s, e) && FaultFree(e)
    ensures var s' := Do(cfg, s, e); forall n, m :: n in s'.notices && m in s'.notices && n.id == m.id ==> n == m
  {
    NoticesChange(cfg, s, e);
    if e.Process? {
      assert StageFits(cfg, s, s.workers[e.w].stage);
      NoticesOfReport(s.workers[e.w].stage.copy, cfg.policy, e.env);
      forall n | n in s.notices ensures n.id != s.workers[e.w].stage.copy.task.id { BusyHasNoNotice(cfg, s, e, n); }
    }
  }

  lemma {:induction false} NoticesStayLast(cfg: Config, s: State, e: Event)
    requires Inv(cfg, s) && WorkersInv(s) && Unique(s) && EndsInv(cfg, s) && CallsInv(cfg, s) && NoticesInv(s)
    requires Enabled(cfg, s, e) && FaultFree(e)
    ensures var s' := Do(cfg, s, e);
            forall n, c :: n in s'.notices && c in s'.history.calls && c.task.id == n.id ==> c.task.attempt <= n.attempt
  {
    var s' := Do(cfg, s, e);
    CallsChange(cfg, s, e);
    NoticesChange(cfg, s, e);
    forall n, c | n in s'.notices && c in s'.history.calls && c.task.id == n.id
      ensures c.task.attempt <= n.attempt
    {
      if n in s.notices { BusyHasNoNotice(cfg, s, e, n); } else { NewNoticeIsLast(cfg, s, e.w, e.env, n, c); }
    }
  }

  lemma {:induction false} NoticesKept(cfg: Config, s: State, e: Event)
    requires cfg.policy.Sound() && Inv(cfg, s) && WorkersInv(s) && Unique(s) && EndsInv(cfg, s) && CallsInv(cfg, s)
    requires NoticesInv(s) && Enabled(cfg, s, e) && FaultFree(e)
    ensures NoticesInv(Do(cfg, s, e))
  {
    NoticesStayConcluded(cfg, s, e);
    NoticesStayOne(cfg, s, e);
    NoticesStayLast(cfg, s, e);
  }

  // ---------------------------------------------------------------- whole fault-free runs

  ghost predicate Orderly(cfg: Config, s: State) {
    && cfg.policy.Sound() && Inv(cfg, s)
    && WorkersInv(s) && Unique(s) && EndsInv(cfg, s) && CallsInv(cfg, s) && NoticesInv(s)
  }

  lemma {:induction false} OrderlyKept(cfg: Config, s: State, e: Event)
    requires Orderly(cfg, s) && Enabled(cfg, s, e) && FaultFree(e)
    ensures Orderly(cfg, Do(cfg, s, e))
  {
    InvKept(cfg, s, e);
    WorkersKept(cfg, s, e);
    UniqueKept(cfg, s, e);
    EndsKept(cfg, s, e);
    CallsKept(cfg, s, e);
    NoticesKept(cfg, s, e);
  }

  lemma {:induction false} FaultFreeOrderly(cfg: Config, leftover: Registry, events: seq<Event>)
    requires FaultFreeRun(cfg, leftover, events)
    ensures Orderly(cfg, Run(cfg, leftover, events).value)
    decreases |events|
  {
    RunInv(cfg, leftover, events);
    if |events| > 0 {
      var before := events[..|events| - 1];
      assert FaultFree(events[|events| - 1]);
      FaultFreeOrderly(cfg, leftover, before);
      OrderlyKept(cfg, Run(cfg, leftover, before).value, events[|events| - 1]);
    }
  }

  /** A copy of the message is waiting or being handled. */
  ghost predicate Pending(cfg: Config, s: State, id: nat) {
    exists no: nat :: IsLiveFor(s, id, no) && !InDeadLetters(cfg, s, no)
  }

  predicate InDeadLetterQueue(cfg: Config, s: State, id: nat) {
    exists no :: no in s.copies && IsLiveFor(s, id, no) && InDeadLetters(cfg, s, no)
  }

  function One(b: bool): nat { if b then 1 else 0 }

  /** Conservation: while nothing fails, every message has at most one copy and stands in exactly one place: pending,
      sent, accepted by its failure callback, or dead-lettered. */
  lemma {:induction false} FaultFreeConservation(cfg: Config, leftover: Registry, events: seq<Event>, id: nat)
    requires FaultFreeRun(cfg, leftover, events) && id < Run(cfg, leftover, events).value.history.nextId
    ensures var s := Run(cfg, leftover, events).value;
            && One(Pending(cfg, s, id)) + One(id in s.history.sent) + One(id in s.history.accepted)
               + One(InDeadLetterQueue(cfg, s, id)) == 1
            && forall j, k :: IsLiveFor(s, id, j) && IsLiveFor(s, id, k) ==> j == k
  {
    FaultFreeOrderly(cfg, leftover, events);
    var s := Run(cfg, leftover, events).value;
    assert OneEnd(cfg, s, id) && Covered(s, id);
    if HasLiveCopy(s, id) {
      var no: nat :| IsLiveFor(s, id, no);
      assert Pending(cfg, s, id) || InDeadLetterQueue(cfg, s, id);
    }
  }

  /** A callback fires in some call of the attempt it reports. */
  lemma {:induction false} NoticeHasCall(cfg: Config, leftover: Registry, events: seq<Event>, n: Notice)
    returns (d: Call)
    requires cfg.policy.Sound() && Consistent(leftover, cfg.queue) && Run(cfg, leftover, events).Some?
    requires n in Run(cfg, leftover, events).value.notices
    ensures d in Run(cfg, leftover, events).value.history.calls && d.task.id == n.id && d.task.attempt == n.attempt
    decreases |events|
  {
    var before, e := events[..|events| - 1], events[|events| - 1];
    var s := Run(cfg, leftover, before).value;
    CallsChange(cfg, s, e);
    NoticesChange(cfg, s, e);
    if n in s.notices {
      d := NoticeHasCall(cfg, leftover, before, n);
    } else {
      RunInv(cfg, leftover, before);
      assert StageFits(cfg, s, s.workers[e.w].stage);
      d :| d in s.history.calls && d.task == s.workers[e.w].stage.copy.task;
    }
  }

  /** The calls of a message come in the order of their attempts. */
  lemma {:induction false} CallsInOrder(p: RetryPolicy, l: Ledger, d: Call, e: Call)
    requires LedgerInv(p, l) && OneCallPerAttempt(l) && d in l.calls && e in l.calls
    requires d.task.id == e.task.id && d.task.attempt < e.task.attempt
    ensures d.at <= e.at
    decreases e.task.attempt - d.task.attempt
  {
    assert TaskFits(p, l, d.task) && TaskFits(p, l, e.task);
    var previous, _ := RetrySpacing(p, l, e);
    if d.task.attempt < previous.task.attempt { CallsInOrder(p, l, d, previous); }
  }

  ghost predicate CalledOn(l: Ledger, id: nat, attempt: int) {
    exists d :: d in l.calls && d.task.id == id && d.task.attempt == attempt
  }

  /** The calls of one message so far: one on every attempt from its first to the last one reached, in order. */
  ghost predicate CalledInOrder(l: Ledger, id: nat, last: int) {
    && id in l.origins
    && (forall a :: l.origins[id].attempt <= a <= last ==> CalledOn(l, id, a))
    && (forall d, e :: d in l.calls && e in l.calls && d.task.id == e.task.id == id ==>
          && (d.task.attempt == e.task.attempt ==> d == e)
          && (d.task.attempt < e.task.attempt ==> d.at <= e.at))
  }

  /** While nothing fails, a message handled on attempt n was handled exactly once on every attempt from its first to n,
      in order; its callback, if one fired, fired once, in the call of the last attempt, with the final status. */
  lemma {:induction false} OneCallPerAttemptInOrder(cfg: Config, leftover: Registry, events: seq<Event>, c: Call)
    requires FaultFreeRun(cfg, leftover, events) && c in Run(cfg, leftover, events).value.history.calls
    ensures var l := Run(cfg, leftover, events).value.history;
            && CalledInOrder(l, c.task.id, c.task.attempt)
            && (l.origins[c.task.id].attempt == 1 ==> c.task.attempt <= cfg.policy.maxAttempts)
    ensures var s := Run(cfg, leftover, events).value;
            && (forall n, m :: n in s.notices && m in s.notices && n.id == m.id ==> n == m)
            && (forall n :: n in s.notices && n.id == c.task.id ==> FiredLast(s, n))
  {
    FaultFreeOrderly(cfg, leftover, events);
    var s := Run(cfg, leftover, events).value;
    var l := s.history;
    assert TaskFits(cfg.policy, l, c.task);
    forall a | l.origins[c.task.id].attempt <= a <= c.task.attempt
      ensures CalledOn(l, c.task.id, a)
    {
      var steps := WaitsAddUp(cfg.policy, l, c, a);
      assert FirstCall(steps, c) in l.calls;
    }
    forall d, e | d in l.calls && e in l.calls && d.task.id == e.task.id == c.task.id && d.task.attempt < e.task.attempt
      ensures d.at <= e.at
    {
      CallsInOrder(cfg.policy, l, d, e);
    }
    forall n | n in s.notices && n.id == c.task.id
      ensures FiredLast(s, n)
    {
      var d := NoticeHasCall(cfg, leftover, events, n);
      assert FiredIn(s, n, d);
    }
  }

  /** The callback fired in call d, the last one of its message. */
  ghost predicate FiredIn(s: State, n: Notice, d: Call) {
    && d in s.history.calls && d.task.id == n.id && d.task.attempt == n.attempt
    && forall e :: e in s.history.calls && e.task.id == n.id ==> e.task.attempt <= d.task.attempt
  }

  ghost predicate FiredLast(s: State, n: Notice) { Concluded(s, n) && exists d :: FiredIn(s, n, d) }
}
