/** When the RabbitMQ transport gives a message up. */
module RabbitOutcomes {
  import opened Topologies
  import opened Delivery
  import opened DelayedRetry
  import opened RabbitBroker
  import opened RabbitSafety

  /** Step e is where the handler's answer made the code give `copy` up. */
  ghost predicate GivesUpOn(cfg: Config, s: State, e: Event, copy: Copy) {
    && e.Process? && e.w in s.workers && s.workers[e.w].stage.Working? && s.workers[e.w].stage.copy == copy
    && HandlerReport(cfg, copy, e.env).GivesUp()
  }

  /** Step i of the run is such a step. */
  ghost predicate GivenUpAt(cfg: Config, leftover: Registry, events: seq<Event>, i: nat, copy: Copy) {
    i < |events| && Run(cfg, leftover, events[..i]).Some?
      && GivesUpOn(cfg, Run(cfg, leftover, events[..i]).value, events[i], copy)
  }

  lemma {:induction false} GivenUpBefore(cfg: Config, leftover: Registry, events: seq<Event>, i: nat, copy: Copy)
    requires |events| > 0 && GivenUpAt(cfg, leftover, events[..|events| - 1], i, copy)
    ensures GivenUpAt(cfg, leftover, events, i, copy)
  {
    assert events[..|events| - 1][..i] == events[..i];
  }

  /** Whatever is about to be dead-lettered was given up. */
  lemma {:induction false} DeadLetterWasGivenUp(cfg: Config, leftover: Registry, events: seq<Event>, w: nat)
    returns (i: nat)
    requires Run(cfg, leftover, events).Some? && w in Run(cfg, leftover, events).value.workers
    requires var stage := Run(cfg, leftover, events).value.workers[w].stage;
             stage.Publishing? && stage.outcome.action.DeadLetter?
    ensures GivenUpAt(cfg, leftover, events, i, Run(cfg, leftover, events).value.workers[w].stage.copy)
    decreases |events|
  {
    var before, e := events[..|events| - 1], events[|events| - 1];
    var s := Run(cfg, leftover, before).value;
    var stage := Run(cfg, leftover, events).value.workers[w].stage;
    StageMoved(cfg, s, e, w);
    if w in s.workers && s.workers[w].stage == stage {
      i := DeadLetterWasGivenUp(cfg, leftover, before, w);
      GivenUpBefore(cfg, leftover, events, i, stage.copy);
    } else {
      i := |events| - 1;
    }
  }

  lemma {:induction false} EndingStep(cfg: Config, s: State, e: Event, id: nat) returns (copy: Copy)
    requires Enabled(cfg, s, e) && id !in s.history.accepted && id !in s.history.dead
    requires var l := Do(cfg, s, e).history; id in l.accepted || id in l.dead
    ensures copy.task.id == id
    ensures if e.Process? then GivesUpOn(cfg, s, e, copy)
            else
              && e.Publish? && s.workers[e.w].stage.copy == copy
              && s.workers[e.w].stage.outcome.action.DeadLetter?
  {
    GivenUpByFinish(cfg.policy, s.history, MoveOf(cfg, s, e), id);
    copy := s.workers[e.w].stage.copy;
  }

  /** Every message whose failure was accepted, or that is a dead letter, was given up by the handler's answer. */
  lemma {:induction false} EndedWasGivenUp(cfg: Config, leftover: Registry, events: seq<Event>, id: nat)
    returns (i: nat, copy: Copy)
    requires Run(cfg, leftover, events).Some?
    requires var l := Run(cfg, leftover, events).value.history; id in l.accepted || id in l.dead
    ensures GivenUpAt(cfg, leftover, events, i, copy) && copy.task.id == id
    decreases |events|
  {
    var before, e := events[..|events| - 1], events[|events| - 1];
    var s := Run(cfg, leftover, before).value;
    if id in s.history.accepted || id in s.history.dead {
      i, copy := EndedWasGivenUp(cfg, leftover, before, id);
      GivenUpBefore(cfg, leftover, events, i, copy);
    } else {
      copy := EndingStep(cfg, s, e, id);
      if e.Process? {
        i := |events| - 1;
      } else {
        i := DeadLetterWasGivenUp(cfg, leftover, before, e.w);
        GivenUpBefore(cfg, leftover, events, i, copy);
      }
    }
  }

  /** A message is given up for a temporary failure only once every attempt has been used: for each message whose
      failure was accepted or that is a dead letter there is the step that gave it up, and if the code it failed with is
      retryable, that was on the last attempt, after calls on all of them. */
  lemma {:induction false} TemporaryFailuresUseAllAttempts(cfg: Config, leftover: Registry, events: seq<Event>, id: nat)
    returns (i: nat, copy: Copy)
    requires cfg.policy.Sound() && Consistent(leftover, cfg.queue) && Run(cfg, leftover, events).Some?
    requires var l := Run(cfg, leftover, events).value.history; id in l.accepted || id in l.dead
    ensures GivenUpAt(cfg, leftover, events, i, copy) && copy.task.id == id
    ensures HandlerReport(cfg, copy, events[i].env).IsTemporary() ==>
              AttemptsUsedUp(cfg.policy, Run(cfg, leftover, events[..i]).value.history, id)
  {
    i, copy := EndedWasGivenUp(cfg, leftover, events, id);
    RunInv(cfg, leftover, events[..i]);
    if HandlerReport(cfg, copy, events[i].env).IsTemporary() {
      UsedUp(cfg, Run(cfg, leftover, events[..i]).value, events[i], copy);
    }
  }

  lemma {:induction false} UsedUp(cfg: Config, s: State, e: Event, copy: Copy)
    requires Inv(cfg, s) && GivesUpOn(cfg, s, e, copy) && HandlerReport(cfg, copy, e.env).IsTemporary()
    ensures AttemptsUsedUp(cfg.policy, s.history, copy.task.id)
  {
    assert StageFits(cfg, s, s.workers[e.w].stage) && TaskFits(cfg.policy, s.history, copy.task);
    TemporaryGivesUpLast(copy.message, cfg.policy, AttemptOf(copy.header), e.env,
      s.history.origins[copy.task.id].attempt);
    AllAttemptsCalled(cfg.policy, s.history, copy.task);
  }
}
