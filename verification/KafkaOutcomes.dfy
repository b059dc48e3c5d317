/** When the Kafka transport gives a message up. */
module KafkaOutcomes {
  import opened Delivery
  import opened DelayedRetry
  import opened KafkaBroker
  import opened KafkaSafety
  import opened KafkaNoLoss

  /** Step e is where the handler's answer made the code give `record` up. */
  ghost predicate GivesUpOn(cfg: Config, s: State, e: Event, record: Record) {
    && e.Answer? && e.m in s.members && s.members[e.m].stage.Calling? && Current(s, s.members[e.m].stage)
    && CurrentRecord(s, s.members[e.m].stage) == record && HandlerReport(cfg, record, e.env).GivesUp()
  }

  /** Step i of the run is such a step. */
  ghost predicate GivenUpAt(cfg: Config, events: seq<Event>, i: nat, record: Record) {
    i < |events| && Run(cfg, events[..i]).Some? && GivesUpOn(cfg, Run(cfg, events[..i]).value, events[i], record)
  }

  lemma {:induction false} GivenUpBefore(cfg: Config, events: seq<Event>, i: nat, record: Record)
    requires |events| > 0 && GivenUpAt(cfg, events[..|events| - 1], i, record)
    ensures GivenUpAt(cfg, events, i, record)
  {
    assert events[..|events| - 1][..i] == events[..i];
  }

  /** Member m is about to produce a dead letter. */
  predicate Buries(s: State, m: nat) {
    m in s.members && s.members[m].stage.Producing? && s.members[m].stage.topic.DeadLetters?
  }

  /** A member comes to produce a dead letter only by giving the record up. */
  lemma {:induction false} BuriesWhatItGaveUp(cfg: Config, s: State, e: Event, m: nat)
    requires Enabled(cfg, s, e) && Buries(Do(cfg, s, e), m)
    requires !(Buries(s, m) && s.members[m].stage == Do(cfg, s, e).members[m].stage)
    ensures e.Answer? && e.m == m && GivesUpOn(cfg, s, e, CurrentRecord(s, s.members[m].stage))
    ensures Do(cfg, s, e).members[m].stage.out.task == CurrentRecord(s, s.members[m].stage).task
  {
    if !IsStepOf(e, m) { OthersStand(cfg, s, e, m); }
  }

  lemma {:induction false} DeadLetterWasGivenUp(cfg: Config, events: seq<Event>, m: nat)
    returns (i: nat, record: Record)
    requires Run(cfg, events).Some? && Buries(Run(cfg, events).value, m)
    ensures GivenUpAt(cfg, events, i, record) && record.task == Run(cfg, events).value.members[m].stage.out.task
    decreases |events|
  {
    var before, e := events[..|events| - 1], events[|events| - 1];
    var s := Run(cfg, before).value;
    if Buries(s, m) && s.members[m].stage == Run(cfg, events).value.members[m].stage {
      i, record := DeadLetterWasGivenUp(cfg, before, m);
      GivenUpBefore(cfg, events, i, record);
    } else {
      BuriesWhatItGaveUp(cfg, s, e, m);
      i, record := |events| - 1, CurrentRecord(s, s.members[m].stage);
    }
  }

  lemma {:induction false} EndingStep(cfg: Config, s: State, e: Event, id: nat)
    requires Enabled(cfg, s, e) && id !in s.history.accepted && id !in s.history.dead
    requires var l := Do(cfg, s, e).history; id in l.accepted || id in l.dead
    ensures if e.Answer?
            then
              && GivesUpOn(cfg, s, e, CurrentRecord(s, s.members[e.m].stage))
              && CurrentRecord(s, s.members[e.m].stage).task.id == id
            else e.Produce? && Buries(s, e.m) && s.members[e.m].stage.out.task.id == id
  {
    GivenUpByFinish(cfg.policy, s.history, MoveOf(cfg, s, e), id);
  }

  /** Every message whose failure was accepted, or that is a dead letter, was given up by the handler's answer. */
  lemma {:induction false} EndedWasGivenUp(cfg: Config, events: seq<Event>, id: nat) returns (i: nat, record: Record)
    requires Run(cfg, events).Some?
    requires var l := Run(cfg, events).value.history; id in l.accepted || id in l.dead
    ensures GivenUpAt(cfg, events, i, record) && record.task.id == id
    decreases |events|
  {
    var before, e := events[..|events| - 1], events[|events| - 1];
    var s := Run(cfg, before).value;
    if id in s.history.accepted || id in s.history.dead {
      i, record := EndedWasGivenUp(cfg, before, id);
      GivenUpBefore(cfg, events, i, record);
    } else {
      EndingStep(cfg, s, e, id);
      if e.Answer? {
        i, record := |events| - 1, CurrentRecord(s, s.members[e.m].stage);
      } else {
        i, record := DeadLetterWasGivenUp(cfg, before, e.m);
        GivenUpBefore(cfg, events, i, record);
      }
    }
  }

  /** A message is given up for a temporary failure only once every attempt has been used: for each message whose
      failure was accepted or that is a dead letter there is the step that gave it up, and if the code it failed with is
      retryable, that was on the last attempt, after calls on all of them. */
  lemma {:induction false} TemporaryFailuresUseAllAttempts(cfg: Config, events: seq<Event>, id: nat)
    returns (i: nat, record: Record)
    requires cfg.policy.Sound() && Run(cfg, events).Some?
    requires var l := Run(cfg, events).value.history; id in l.accepted || id in l.dead
    ensures GivenUpAt(cfg, events, i, record) && record.task.id == id
    ensures HandlerReport(cfg, record, events[i].env).IsTemporary() ==>
              AttemptsUsedUp(cfg.policy, Run(cfg, events[..i]).value.history, id)
  {
    i, record := EndedWasGivenUp(cfg, events, id);
    RunInv(cfg, events[..i]);
    if HandlerReport(cfg, record, events[i].env).IsTemporary() {
      UsedUp(cfg, Run(cfg, events[..i]).value, events[i], record);
    }
  }

  lemma {:induction false} UsedUp(cfg: Config, s: State, e: Event, record: Record)
    requires Inv(cfg, s) && GivesUpOn(cfg, s, e, record) && HandlerReport(cfg, record, e.env).IsTemporary()
    ensures AttemptsUsedUp(cfg.policy, s.history, record.task.id)
  {
    var stage := s.members[e.m].stage;
    assert StageFits(cfg, s, s.members[e.m]);
    assert RecordFits(s.history, stage.batch[stage.done].at.topic, record)
      && TaskFits(cfg.policy, s.history, record.task);
    TemporaryGivesUpLast(record.message, cfg.policy, AttemptOf(record.headers), e.env,
      s.history.origins[record.task.id].attempt);
    AllAttemptsCalled(cfg.policy, s.history, record.task);
  }
}
