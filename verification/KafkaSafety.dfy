/** Committed offsets of the Kafka transport only ever pass resolved records, exactly when failed produces mean
    cancellation. */
module KafkaSafety {
  import opened Numbers
  import opened Delivery
  import opened KafkaBroker

  /** Sent, accepted by the failure callback, or copied to the retry or the dead-letter topic. */
  ghost predicate Resolved(s: State, slot: Slot) { exists fate :: Settlement(slot, fate) in s.settled }

  ghost predicate AllBelow(s: State, at: Partition, n: nat) { forall o: nat :: o < n ==> Resolved(s, Slot(at, o)) }

  ghost predicate CommitInv(s: State) { forall at :: at in s.committed ==> AllBelow(s, at, s.committed[at]) }

  ghost predicate PositionsResolved(s: State, member: Member) {
    forall p :: p in member.position ==> AllBelow(s, Partition(member.topic, p), member.position[p])
  }

  /** Before each record of the batch, every record of its partition is resolved or comes earlier in the batch. */
  ghost predicate BatchInOrder(s: State, batch: seq<Slot>) {
    forall i, o: nat :: 0 <= i < |batch| && o < batch[i].offset ==>
      Resolved(s, Slot(batch[i].at, o)) || Slot(batch[i].at, o) in batch[..i]
  }

  ghost predicate BatchFits(cfg: Config, s: State, member: Member, batch: seq<Slot>, done: nat) {
    && done <= |batch|
    && (forall i :: 0 <= i < |batch| ==> batch[i].at.topic == member.topic && Exists(s, batch[i]))
    && BatchInOrder(s, batch)
    && (forall i :: 0 <= i < done ==> Resolved(s, batch[i]))
    && (forall p, o: nat :: p in member.position && o < member.position[p] ==>
          Resolved(s, Slot(Partition(member.topic, p), o)) || Slot(Partition(member.topic, p), o) in batch)
  }

  /** The member may poll on only from resolved positions; a batch left early means its context is cancelled. */
  ghost predicate MemberFits(cfg: Config, s: State, member: Member) {
    && !member.topic.DeadLetters?
    && match member.stage
       case Polling => member.cancelled || PositionsResolved(s, member)
       case Handling(batch, done) => BatchFits(cfg, s, member, batch, done)
       case Calling(batch, done) => BatchFits(cfg, s, member, batch, done) && done < |batch|
       case Producing(batch, done, _, _) => BatchFits(cfg, s, member, batch, done) && done < |batch|
       case Committing(batch, done) => BatchFits(cfg, s, member, batch, done) && (member.cancelled || done == |batch|)
  }

  ghost predicate MembersInv(cfg: Config, s: State) { forall m :: m in s.members ==> MemberFits(cfg, s, s.members[m]) }

  // ---------------------------------------------------------------- one step

  /** Logs and settlements only grow. */
  ghost predicate LogsExtend(s: State, s': State) {
    s.settled <= s'.settled && forall at :: at in s.logs ==> at in s'.logs && s.logs[at] <= s'.logs[at]
  }

  lemma {:induction false} StepExtends(cfg: Config, s: State, e: Event)
    requires Enabled(cfg, s, e)
    ensures LogsExtend(s, Do(cfg, s, e))
  {
  }

  /** A step of member m, other than joining. */
  predicate IsStepOf(e: Event, m: nat) { !e.Publish? && !e.Elapse? && !e.Join? && e.m == m }

  /** A step leaves the other members alone; a joining one starts out polling. */
  lemma {:induction false} OthersStand(cfg: Config, s: State, e: Event, m: nat)
    requires Enabled(cfg, s, e) && m in Do(cfg, s, e).members && !IsStepOf(e, m)
    ensures var member := Do(cfg, s, e).members[m];
            if m in s.members then member == s.members[m]
            else !member.topic.DeadLetters? && member == NewMember(member.topic)
  {
  }

  function NewMember(topic: Topic): Member { Member(topic, map[], false, Polling) }

  lemma {:induction false} ResolvedAllStay(s: State, s': State)
    requires s.settled <= s'.settled
    ensures forall slot :: Resolved(s, slot) ==> Resolved(s', slot)
  {
  }

  lemma {:induction false} ExistsStays(s: State, s': State, slot: Slot)
    requires LogsExtend(s, s') && Exists(s, slot)
    ensures Exists(s', slot) && RecordAt(s', slot) == RecordAt(s, slot)
  {
  }

  lemma {:induction false} BatchStays(cfg: Config, s: State, s': State, member: Member, batch: seq<Slot>, done: nat)
    requires LogsExtend(s, s') && BatchFits(cfg, s, member, batch, done)
    ensures BatchFits(cfg, s', member, batch, done)
  {
  }

  lemma {:induction false} MemberStays(cfg: Config, s: State, s': State, member: Member)
    requires LogsExtend(s, s') && MemberFits(cfg, s, member)
    ensures MemberFits(cfg, s', member)
  {
    ResolvedAllStay(s, s');
    if !member.stage.Polling? { BatchStays(cfg, s, s', member, member.stage.batch, member.stage.done); }
  }

  /** What a poll hands out is in order, given that everything before it is resolved. */
  lemma {:induction false} PolledFits(cfg: Config, s: State, member: Member, batch: seq<Slot>, after: map<nat, nat>)
    requires Fetches(s, member, batch, after) && PositionsResolved(s, member)
    ensures BatchFits(cfg, s, member.(position := after), batch, 0)
  {
  }

  /** Resolving the current record lets the batch move on. */
  lemma {:induction false} AdvancedFits(cfg: Config, s: State, s': State, member: Member, batch: seq<Slot>, done: nat,
      fate: Fate)
    requires LogsExtend(s, s') && BatchFits(cfg, s, member, batch, done) && done < |batch|
    requires Settlement(batch[done], fate) in s'.settled
    ensures BatchFits(cfg, s', member, batch, done + 1)
  {
  }

  /** Everything up to each resolved record of a batch is resolved: committing past it is safe. */
  lemma {:induction false} PrefixResolved(cfg: Config, s: State, member: Member, batch: seq<Slot>, done: nat, i: nat)
    requires BatchFits(cfg, s, member, batch, done) && i < done
    ensures AllBelow(s, batch[i].at, batch[i].offset + 1)
  {
  }

  lemma {:induction false} OffsetsSafe(s: State, slots: seq<Slot>)
    requires forall i :: 0 <= i < |slots| ==> AllBelow(s, slots[i].at, slots[i].offset + 1)
    ensures forall at :: at in OffsetsOf(slots) ==> AllBelow(s, at, OffsetsOf(slots)[at])
    decreases |slots|
  {
    if |slots| > 0 { OffsetsSafe(s, slots[..|slots| - 1]); }
  }

  /** What a successful commit commits is safe. */
  lemma {:induction false} CommittedIsSafe(cfg: Config, s: State, m: nat)
    requires MembersInv(cfg, s) && Enabled(cfg, s, Commit(m, true))
    ensures var stage := s.members[m].stage; var offsets := OffsetsOf(stage.batch[..stage.done]);
            forall at :: at in offsets ==> AllBelow(s, at, offsets[at])
  {
    var stage := s.members[m].stage;
    assert MemberFits(cfg, s, s.members[m]);
    var slots := stage.batch[..stage.done];
    forall i | 0 <= i < |slots| ensures AllBelow(s, slots[i].at, slots[i].offset + 1) {
      PrefixResolved(cfg, s, s.members[m], stage.batch, stage.done, i);
    }
    OffsetsSafe(s, slots);
  }

  lemma {:induction false} CommittedChange(cfg: Config, s: State, e: Event)
    requires Enabled(cfg, s, e)
    ensures Do(cfg, s, e).committed
            == if e.Commit? && e.ok
               then var stage := s.members[e.m].stage; s.committed + OffsetsOf(stage.batch[..stage.done])
               else s.committed
  {
  }

  lemma {:induction false} CommitKept(cfg: Config, s: State, e: Event)
    requires CommitInv(s) && MembersInv(cfg, s) && Enabled(cfg, s, e)
    ensures CommitInv(Do(cfg, s, e))
  {
    StepExtends(cfg, s, e);
    ResolvedAllStay(s, Do(cfg, s, e));
    CommittedChange(cfg, s, e);
    if e.Commit? && e.ok { CommittedIsSafe(cfg, s, e.m); }
  }

  lemma {:induction false} PollKeepsFit(cfg: Config, s: State, m: nat, batch: seq<Slot>, after: map<nat, nat>)
    requires MembersInv(cfg, s) && Enabled(cfg, s, Poll(m, batch, after))
    ensures MemberFits(cfg, Do(cfg, s, Poll(m, batch, after)),
              s.members[m].(position := after, stage := Handling(batch, 0)))
  {
    assert MemberFits(cfg, s, s.members[m]);
    PolledFits(cfg, s, s.members[m], batch, after);
    StepExtends(cfg, s, Poll(m, batch, after));
    BatchStays(cfg, s, Do(cfg, s, Poll(m, batch, after)), s.members[m].(position := after), batch, 0);
  }

  lemma {:induction false} AnswerKeepsFit(cfg: Config, s: State, m: nat, env: Env)
    requires MembersInv(cfg, s) && Enabled(cfg, s, Answer(m, env))
    ensures MemberFits(cfg, Do(cfg, s, Answer(m, env)), AfterAnswer(cfg, s, m, env).members[m])
  {
    var member := s.members[m];
    var s' := Do(cfg, s, Answer(m, env));
    assert MemberFits(cfg, s, member);
    StepExtends(cfg, s, Answer(m, env));
    BatchStays(cfg, s, s', member, member.stage.batch, member.stage.done);
    if AfterAnswer(cfg, s, m, env).members[m].stage.Handling? {
      AdvancedFits(cfg, s, s', member, member.stage.batch, member.stage.done, Ended);
    }
  }

  lemma {:induction false} ProduceKeepsFit(cfg: Config, s: State, m: nat, p: nat, result: ProduceResult)
    requires cfg.strict && MembersInv(cfg, s) && Enabled(cfg, s, Produce(m, p, result))
    ensures MemberFits(cfg, Do(cfg, s, Produce(m, p, result)), AfterProduce(s, m, p, result).members[m])
  {
    var member := s.members[m];
    var s' := Do(cfg, s, Produce(m, p, result));
    assert MemberFits(cfg, s, member);
    StepExtends(cfg, s, Produce(m, p, result));
    BatchStays(cfg, s, s', member, member.stage.batch, member.stage.done);
    if result.Acked? {
      var at := Partition(member.stage.topic, p);
      AdvancedFits(cfg, s, s', member, member.stage.batch, member.stage.done, Moved(Slot(at, |Log(s, at)|)));
    }
  }

  lemma {:induction false} AssignKeepsFit(cfg: Config, s: State, m: nat, p: nat)
    requires CommitInv(s) && MembersInv(cfg, s) && Enabled(cfg, s, Assign(m, p))
    ensures MemberFits(cfg, s, Do(cfg, s, Assign(m, p)).members[m])
  {
  }

  lemma {:induction false} CommitKeepsFit(cfg: Config, s: State, m: nat, ok: bool)
    requires MembersInv(cfg, s) && Enabled(cfg, s, Commit(m, ok))
    ensures MemberFits(cfg, s, s.members[m].(stage := Polling))
  {
  }

  lemma {:induction false} MemberMoves(cfg: Config, s: State, e: Event)
    requires cfg.strict && CommitInv(s) && MembersInv(cfg, s) && Enabled(cfg, s, e)
    requires !e.Publish? && !e.Elapse? && IsStepOf(e, e.m) && e.m in Do(cfg, s, e).members
    ensures MemberFits(cfg, Do(cfg, s, e), Do(cfg, s, e).members[e.m])
  {
    var s' := Do(cfg, s, e);
    StepExtends(cfg, s, e);
    if e.Poll? {
      PollKeepsFit(cfg, s, e.m, e.batch, e.after);
    } else if e.Answer? {
      AnswerKeepsFit(cfg, s, e.m, e.env);
    } else if e.Produce? {
      ProduceKeepsFit(cfg, s, e.m, e.partition, e.result);
    } else if e.Assign? {
      AssignKeepsFit(cfg, s, e.m, e.partition);
      MemberStays(cfg, s, s', s'.members[e.m]);
    } else if e.Commit? {
      CommitKeepsFit(cfg, s, e.m, e.ok);
      MemberStays(cfg, s, s', s'.members[e.m]);
    } else {
      assert MemberFits(cfg, s, s.members[e.m]);
      MemberStays(cfg, s, s', s.members[e.m]);
    }
  }

  lemma {:induction false} MembersKept(cfg: Config, s: State, e: Event)
    requires cfg.strict && CommitInv(s) && MembersInv(cfg, s) && Enabled(cfg, s, e)
    ensures MembersInv(cfg, Do(cfg, s, e))
  {
    var s' := Do(cfg, s, e);
    StepExtends(cfg, s, e);
    forall m | m in s'.members
      ensures MemberFits(cfg, s', s'.members[m])
    {
      if IsStepOf(e, m) {
        MemberMoves(cfg, s, e);
      } else {
        OthersStand(cfg, s, e, m);
        if m in s.members { MemberStays(cfg, s, s', s.members[m]); }
      }
    }
  }

  // ---------------------------------------------------------------- whole runs

  lemma {:induction false} RunKeepsCommits(cfg: Config, events: seq<Event>)
    requires cfg.strict && Run(cfg, events).Some?
    ensures CommitInv(Run(cfg, events).value) && MembersInv(cfg, Run(cfg, events).value)
    decreases |events|
  {
    if |events| > 0 {
      var before, e := events[..|events| - 1], events[|events| - 1];
      RunKeepsCommits(cfg, before);
      CommitKept(cfg, Run(cfg, before).value, e);
      MembersKept(cfg, Run(cfg, before).value, e);
    }
  }

  /** No committed offset passes an unresolved record. */
  ghost predicate CommitsAreSafe(cfg: Config, events: seq<Event>)
    requires Run(cfg, events).Some?
  {
    forall at, o: nat :: o < Committed(Run(cfg, events).value, at) ==> Resolved(Run(cfg, events).value, Slot(at, o))
  }

  lemma {:induction false} StrictCommitsAreSafe(cfg: Config, events: seq<Event>)
    requires cfg.strict && Run(cfg, events).Some?
    ensures CommitsAreSafe(cfg, events)
  {
    RunKeepsCommits(cfg, events);
    var s := Run(cfg, events).value;
    forall at, o: nat | o < Committed(s, at)
      ensures Resolved(s, Slot(at, o))
    {
      assert AllBelow(s, at, s.committed[at]);
    }
  }

  lemma {:induction false} RunOne(cfg: Config, events: seq<Event>, e: Event) returns (more: seq<Event>)
    requires Run(cfg, events).Some? && Enabled(cfg, Run(cfg, events).value, e)
    ensures more == events + [e] && Run(cfg, more) == Some(Do(cfg, Run(cfg, events).value, e))
  {
    more := events + [e];
    assert more[..|more| - 1] == events;
  }

  // ---------------------------------------------------------------- without the hypothesis

  const P0 := Partition(Main, 0)

  /** The logs hold two malformed records, in partition 0, of messages 0 and 1; nothing is resolved. */
  ghost predicate TwoRecords(s: State) {
    && s.logs.Keys == {P0} && |s.logs[P0]| == 2
    && (forall i :: 0 <= i < 2 ==> s.logs[P0][i].message.Malformed? && s.logs[P0][i].task.id == i)
    && s.settled == {} && s.history.sent == {} && s.history.accepted == {} && s.history.nextId == 2
  }

  /** Member 0 is about to poll from offset o. */
  ghost predicate Scene(s: State, o: nat) {
    && TwoRecords(s) && s.committed == map[]
    && 0 in s.members && s.members[0] == Member(Main, map[0 := o], false, Polling)
  }

  /** Member 0 is inside its batch of the one record at offset o. */
  ghost predicate InScene(s: State, o: nat, stage: Stage) {
    && TwoRecords(s) && s.committed == map[]
    && 0 in s.members && s.members[0] == Member(Main, map[0 := o + 1], false, stage)
  }

  ghost predicate Producing1(s: State, o: nat)
    requires o < 2
  {
    && TwoRecords(s) && 0 in s.members && s.members[0].stage.Producing?
    && InScene(s, o, Producing([Slot(P0, o)], 0, s.members[0].stage.out, DeadLetters))
    && s.members[0].stage.out.task == s.logs[P0][o].task
  }

  lemma {:induction false} SetTheScene(cfg: Config) returns (events: seq<Event>)
    ensures Run(cfg, events).Some? && Scene(Run(cfg, events).value, 0)
  {
    events := RunOne(cfg, [], Publish(0, Malformed(""), []));
    FirstRecord(cfg);
    SecondRecord(cfg, Run(cfg, events).value);
    events := RunOne(cfg, events, Publish(0, Malformed(""), []));
    events := JoinAndAssign(cfg, events);
  }

  /** The state before the second record is published. */
  ghost predicate OneRecord(s: State) {
    && s.logs.Keys == {P0} && |s.logs[P0]| == 1 && s.logs[P0][0].message.Malformed? && s.logs[P0][0].task.id == 0
    && s.settled == {} && s.history.sent == {} && s.history.accepted == {} && s.history.nextId == 1
    && s.members == map[] && s.committed == map[]
  }

  lemma {:induction false} FirstRecord(cfg: Config)
    ensures OneRecord(Do(cfg, INIT, Publish(0, Malformed(""), [])))
  {
  }

  lemma {:induction false} SecondRecord(cfg: Config, s: State)
    requires OneRecord(s)
    ensures var s' := Do(cfg, s, Publish(0, Malformed(""), []));
            TwoRecords(s') && s'.members == map[] && s'.committed == map[]
  {
  }

  lemma {:induction false} JoinAndAssign(cfg: Config, before: seq<Event>) returns (events: seq<Event>)
    requires Run(cfg, before).Some?
    requires var s := Run(cfg, before).value; TwoRecords(s) && s.members == map[] && s.committed == map[]
    ensures Run(cfg, events).Some? && Scene(Run(cfg, events).value, 0)
  {
    events := RunOne(cfg, before, Join(0, Main));
    events := RunOne(cfg, events, Assign(0, 0));
  }

  lemma {:induction false} FetchOne(s: State, o: nat)
    requires o < 2 && Scene(s, o)
    ensures Fetches(s, s.members[0], [Slot(P0, o)], map[0 := o + 1])
  {
  }

  /** The handler dead-letters a malformed record. */
  lemma {:induction false} AnswerOne(cfg: Config, s: State, o: nat, env: Env)
    requires o < 2 && InScene(s, o, Calling([Slot(P0, o)], 0))
    ensures Enabled(cfg, s, Answer(0, env))
    ensures Producing1(Do(cfg, s, Answer(0, env)), o)
  {
  }

  lemma {:induction false} PollOne(cfg: Config, before: seq<Event>, o: nat, env: Env) returns (events: seq<Event>)
    requires o < 2 && Run(cfg, before).Some? && Scene(Run(cfg, before).value, o)
    ensures Run(cfg, events).Some? && Producing1(Run(cfg, events).value, o)
  {
    var batch := [Slot(P0, o)];
    FetchOne(Run(cfg, before).value, o);
    events := RunOne(cfg, before, Poll(0, batch, map[0 := o + 1]));
    assert InScene(Run(cfg, events).value, o, Handling(batch, 0));
    events := RunOne(cfg, events, Begin(0));
    AnswerOne(cfg, Run(cfg, events).value, o, env);
    events := RunOne(cfg, events, Answer(0, env));
  }

  /** The produce fails, nothing is committed, and the next poll starts past the record. */
  lemma {:induction false} SkipOne(cfg: Config, s: State)
    requires !cfg.strict && Producing1(s, 0)
    ensures var e := Produce(0, 0, ProduceResult.Failed(false));
            && Enabled(cfg, s, e) && Enabled(cfg, Do(cfg, s, e), Commit(0, true))
            && Scene(Do(cfg, Do(cfg, s, e), Commit(0, true)), 1)
  {
  }

  /** Message 0 is in no log but at the start of partition 0, was not resolved there, and has not ended. */
  ghost predicate OnlyAtStart(s: State) {
    && s.history.nextId == 2 && s.history.sent == {} && s.history.accepted == {}
    && !Resolved(s, Slot(P0, 0))
    && forall slot :: Exists(s, slot) && RecordAt(s, slot).task.id == 0 ==> slot == Slot(P0, 0)
  }

  /** The second record is dead-lettered, and the batch ends. */
  lemma {:induction false} KeepOne(cfg: Config, s: State)
    requires Producing1(s, 1)
    ensures Enabled(cfg, s, Produce(0, 0, Acked)) && Enabled(cfg, Do(cfg, s, Produce(0, 0, Acked)), EndBatch(0))
    ensures var s2 := Do(cfg, Do(cfg, s, Produce(0, 0, Acked)), EndBatch(0));
            && 0 in s2.members && s2.members[0].stage == Committing([Slot(P0, 1)], 1)
            && s2.committed == map[] && OnlyAtStart(s2)
  {
  }

  lemma {:induction false} CommitOne(cfg: Config, before: seq<Event>) returns (events: seq<Event>)
    requires Run(cfg, before).Some?
    requires var s := Run(cfg, before).value;
             && 0 in s.members && s.members[0].stage == Committing([Slot(P0, 1)], 1)
             && s.committed == map[] && OnlyAtStart(s)
    ensures Run(cfg, events).Some? && OnlyAtStart(Run(cfg, events).value) && Committed(Run(cfg, events).value, P0) == 2
  {
    events := RunOne(cfg, before, Commit(0, true));
    assert [Slot(P0, 1)][..1] == [Slot(P0, 1)] && [Slot(P0, 1)][..0] == [];
    assert OffsetsOf([Slot(P0, 1)]) == map[P0 := 2];
    var s, s' := Run(cfg, before).value, Run(cfg, events).value;
    assert s'.logs == s.logs;
    forall slot | Exists(s', slot) && RecordAt(s', slot).task.id == 0 ensures slot == Slot(P0, 0) {
      assert Exists(s, slot);
    }
  }

  /** Where produces may fail without cancellation, some run commits past a record that was never resolved, the only
      trace of its message. */
  lemma {:induction false} LaxCommitsAreUnsafe(cfg: Config, env: Env) returns (events: seq<Event>)
    requires !cfg.strict
    ensures Run(cfg, events).Some? && OnlyAtStart(Run(cfg, events).value) && Committed(Run(cfg, events).value, P0) == 2
    ensures !CommitsAreSafe(cfg, events)
  {
    events := SetTheScene(cfg);
    events := PollOne(cfg, events, 0, env);
    SkipOne(cfg, Run(cfg, events).value);
    events := RunOne(cfg, events, Produce(0, 0, ProduceResult.Failed(false)));
    events := RunOne(cfg, events, Commit(0, true));
    events := PollOne(cfg, events, 1, env);
    KeepOne(cfg, Run(cfg, events).value);
    events := RunOne(cfg, events, Produce(0, 0, Acked));
    events := RunOne(cfg, events, EndBatch(0));
    events := CommitOne(cfg, events);
  }

  /** Commits never pass an unresolved record, in any run, exactly when a produce fails only under a cancelled
      context. */
  lemma {:induction false} CommitsSafeIffStrict(cfg: Config)
    ensures (forall events :: Run(cfg, events).Some? ==> CommitsAreSafe(cfg, events)) <==> cfg.strict
  {
    if cfg.strict {
      forall events | Run(cfg, events).Some? ensures CommitsAreSafe(cfg, events) { StrictCommitsAreSafe(cfg, events); }
    } else {
      var events := LaxCommitsAreUnsafe(cfg, Env(None, true));
    }
  }
}
