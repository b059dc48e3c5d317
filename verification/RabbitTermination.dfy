/** While nothing fails, the RabbitMQ transport settles every message in a bounded number of steps. */
module RabbitTermination {
  import opened Numbers
  import opened RetryPolicies
  import opened Topologies
  import opened Delivery
  import opened DelayedRetry
  import opened RabbitBroker
  import opened RabbitSafety
  import opened RabbitFaultFree

  /** The attempts a task may still be followed by. */
  function Remaining(p: RetryPolicy, attempt: int): (n: nat) { Max(p.maxAttempts, attempt) - attempt }

  /** The steps a copy has before it: six for each attempt left, and those of the current attempt. */
  function Weight(cfg: Config, s: State, no: nat): nat
    requires no in s.copies
  {
    var copy := s.copies[no];
    var left := 6 * Remaining(cfg.policy, copy.task.attempt);
    match copy.place
    case Unacked(w) => left + (if w in s.workers && s.workers[w].stage.Publishing? then 2 else 3)
    case Ready(queue, _) =>
      if queue == cfg.Topology().deadLetter then 0 else if queue == cfg.queue then left + 4 else left + 5
  }

  ghost function Rank(cfg: Config, s: State, id: nat): nat {
    if HasLiveCopy(s, id) then var no: nat :| IsLiveFor(s, id, no); Weight(cfg, s, no) else 0
  }

  ghost function TotalRank(cfg: Config, s: State, n: nat): nat {
    if n == 0 then 0 else TotalRank(cfg, s, n - 1) + Rank(cfg, s, n - 1)
  }

  function AckingWorkers(s: State): set<nat> { set w | w in s.workers && s.workers[w].stage.Acking? }

  ghost function Measure(cfg: Config, s: State): nat { TotalRank(cfg, s, s.history.nextId) + |AckingWorkers(s)| }

  /** The steps that move messages on. */
  predicate Work(e: Event) { e.Deliver? || e.Process? || e.Publish? || e.Ack? || e.Expire? }

  lemma {:induction false} RankIs(cfg: Config, s: State, id: nat, no: nat)
    requires Unique(s) && IsLiveFor(s, id, no)
    ensures Rank(cfg, s, id) == Weight(cfg, s, no)
  {
  }

  /** The copy a step is about. */
  function Subject(s: State, e: Event): nat
    requires e.Deliver? || e.Expire? || ((e.Process? || e.Publish?) && e.w in s.workers && !s.workers[e.w].stage.Idle?)
  {
    if e.Deliver? || e.Expire? then e.no else s.workers[e.w].stage.no
  }

  lemma {:induction false} SubjectIsLive(cfg: Config, s: State, e: Event)
    requires Orderly(cfg, s) && Enabled(cfg, s, e) && Work(e) && !e.Ack?
    ensures Subject(s, e) in s.copies && !Spent(s, Subject(s, e))
    ensures s.copies[Subject(s, e)].task.id < s.history.nextId
  {
  }

  lemma {:induction false} PlaceKept(cfg: Config, s: State, e: Event, no: nat)
    requires TagsInv(cfg, s) && WorkersInv(s) && Enabled(cfg, s, e) && FaultFree(e) && no in s.copies && !Spent(s, no)
    requires Work(e) && !e.Ack? ==> no != Subject(s, e)
    ensures no in Do(cfg, s, e).copies && Do(cfg, s, e).copies[no] == s.copies[no]
  {
    LiveStays(cfg, s, e, no);
  }

  lemma {:induction false} HolderStageKept(cfg: Config, s: State, e: Event, no: nat)
    requires WorkersInv(s) && Enabled(cfg, s, e) && FaultFree(e) && no in s.copies && !Spent(s, no)
    requires s.copies[no].place.Unacked?
    requires Work(e) && !e.Ack? ==> no != Subject(s, e)
    ensures var w := s.copies[no].place.worker;
            w in s.workers && w in Do(cfg, s, e).workers && Do(cfg, s, e).workers[w].stage == s.workers[w].stage
  {
  }

  /** A step leaves every other live copy live and its weight alone. */
  lemma {:induction false} WeightKept(cfg: Config, s: State, e: Event, no: nat)
    requires Orderly(cfg, s) && Enabled(cfg, s, e) && FaultFree(e) && no in s.copies && !Spent(s, no)
    requires Work(e) && !e.Ack? ==> no != Subject(s, e)
    ensures no in Do(cfg, s, e).copies && !Spent(Do(cfg, s, e), no)
    ensures Weight(cfg, Do(cfg, s, e), no) == Weight(cfg, s, no)
    ensures Do(cfg, s, e).copies[no].task == s.copies[no].task
  {
    PlaceKept(cfg, s, e, no);
    if s.copies[no].place.Unacked? { HolderStageKept(cfg, s, e, no); }
    SameWeight(cfg, s, Do(cfg, s, e), no);
  }

  lemma {:induction false} SameWeight(cfg: Config, s: State, s': State, no: nat)
    requires no in s.copies && no in s'.copies && s'.copies[no] == s.copies[no]
    requires s.copies[no].place.Unacked? ==>
               var w := s.copies[no].place.worker;
               w in s.workers && w in s'.workers && s'.workers[w].stage == s.workers[w].stage
    ensures Weight(cfg, s', no) == Weight(cfg, s, no) && Spent(s', no) == Spent(s, no)
  {
  }

  lemma {:induction false} OtherRankKept(cfg: Config, s: State, e: Event, id: nat)
    requires Orderly(cfg, s) && Enabled(cfg, s, e) && FaultFree(e) && id < s.history.nextId
    requires Work(e) && !e.Ack? ==> Subject(s, e) in s.copies && id != s.copies[Subject(s, e)].task.id
    ensures Rank(cfg, Do(cfg, s, e), id) == Rank(cfg, s, id)
  {
    var s' := Do(cfg, s, e);
    UniqueKept(cfg, s, e);
    if HasLiveCopy(s, id) {
      var no: nat :| IsLiveFor(s, id, no);
      WeightKept(cfg, s, e, no);
      assert IsLiveFor(s', id, no);
      RankIs(cfg, s, id, no);
      RankIs(cfg, s', id, no);
    } else if HasLiveCopy(s', id) {
      var no: nat :| IsLiveFor(s', id, no);
      LiveBefore(cfg, s, e, no);
      if e.Publish? {
        assert StageFits(cfg, s, s.workers[e.w].stage);
        PublishReplaces(cfg, s, e.w);
      }
      assert IsLiveFor(s, id, no);
    }
  }

  /** The message a step is about comes at least one step closer to its end, two if the step settles a delivery. */
  lemma {:induction false} SubjectRankDrops(cfg: Config, s: State, e: Event)
    requires Orderly(cfg, s) && Enabled(cfg, s, e) && FaultFree(e) && Work(e) && !e.Ack?
    requires Subject(s, e) in s.copies && !Spent(s, Subject(s, e))
    ensures var id := s.copies[Subject(s, e)].task.id;
            Rank(cfg, Do(cfg, s, e), id) + (if Settles(cfg, s, e) then 2 else 1) <= Rank(cfg, s, id)
  {
    RankIs(cfg, s, s.copies[Subject(s, e)].task.id, Subject(s, e));
    UniqueKept(cfg, s, e);
    if e.Publish? {
      PublishDrops(cfg, s, e.w);
    } else if e.Process? {
      ProcessDrops(cfg, s, e.w, e.env);
    } else {
      MoveDrops(cfg, s, e, e.no);
    }
  }

  /** A copy that a queue hands out or releases comes closer to its end. */
  lemma {:induction false} MoveDrops(cfg: Config, s: State, e: Event, no: nat)
    requires Orderly(cfg, s) && Enabled(cfg, s, e) && Unique(Do(cfg, s, e))
    requires (e.Deliver? || e.Expire?) && e.no == no && no in s.copies && !Spent(s, no)
    ensures Rank(cfg, Do(cfg, s, e), s.copies[no].task.id) < Weight(cfg, s, no)
  {
    var s' := Do(cfg, s, e);
    assert TimingFits(cfg, s, s.copies[no]);
    NamesAreDistinct(cfg.queue, 0);
    assert IsLiveFor(s', s.copies[no].task.id, no);
    RankIs(cfg, s', s.copies[no].task.id, no);
  }

  lemma {:induction false} PublishDrops(cfg: Config, s: State, w: nat)
    requires Orderly(cfg, s) && Enabled(cfg, s, Publish(w, Confirmed)) && Unique(Do(cfg, s, Publish(w, Confirmed)))
    requires s.workers[w].stage.no in s.copies
    ensures var s' := Do(cfg, s, Publish(w, Confirmed)); var no := s.workers[w].stage.no;
            Rank(cfg, s', s.copies[no].task.id) + 2 <= Weight(cfg, s, no)
  {
    var s' := Do(cfg, s, Publish(w, Confirmed));
    var stage := s.workers[w].stage;
    assert StageFits(cfg, s, stage);
    PublishReplaces(cfg, s, w);
    RankIs(cfg, s', stage.copy.task.id, s.nextNo);
    TargetDeclared(cfg, s, w);
    if stage.outcome.action.Retry? {
      assert s'.copies[s.nextNo].task.attempt == stage.copy.task.attempt + 1 <= cfg.policy.maxAttempts;
    }
  }

  lemma {:induction false} ProcessDrops(cfg: Config, s: State, w: nat, env: Env)
    requires Orderly(cfg, s) && Enabled(cfg, s, Process(w, env)) && Unique(Do(cfg, s, Process(w, env)))
    requires s.workers[w].stage.no in s.copies
    ensures var s' := Do(cfg, s, Process(w, env)); var no := s.workers[w].stage.no;
            Rank(cfg, s', s.copies[no].task.id)
              + (if Settles(cfg, s, Process(w, env)) then 2 else 1) <= Weight(cfg, s, no)
  {
    var e := Process(w, env);
    var s' := Do(cfg, s, e);
    var no := s.workers[w].stage.no;
    var id := s.copies[no].task.id;
    assert StageFits(cfg, s, s.workers[w].stage);
    if Settles(cfg, s, e) {
      OrderlyKept(cfg, s, e);
      ProcessRecordsOneEnd(cfg, s, w, env);
      assert OneEnd(cfg, s', id);
    } else {
      assert IsLiveFor(s', id, no);
      RankIs(cfg, s', id, no);
    }
  }

  lemma {:induction false} TotalSame(cfg: Config, s: State, s': State, n: nat)
    requires forall id: nat :: id < n ==> Rank(cfg, s', id) == Rank(cfg, s, id)
    ensures TotalRank(cfg, s', n) == TotalRank(cfg, s, n)
    decreases n
  {
    if n > 0 { TotalSame(cfg, s, s', n - 1); }
  }

  lemma {:induction false} TotalDrops(cfg: Config, s: State, s': State, n: nat, id: nat, drop: nat)
    requires id < n && Rank(cfg, s', id) + drop <= Rank(cfg, s, id)
    requires forall k: nat :: k < n && k != id ==> Rank(cfg, s', k) == Rank(cfg, s, k)
    ensures TotalRank(cfg, s', n) + drop <= TotalRank(cfg, s, n)
    decreases n
  {
    if id == n - 1 { TotalSame(cfg, s, s', n - 1); } else { TotalDrops(cfg, s, s', n - 1, id, drop); }
  }

  lemma {:induction false} AckingChange(cfg: Config, s: State, e: Event)
    requires Enabled(cfg, s, e) && FaultFree(e) && WorkersInv(s)
    ensures AckingWorkers(Do(cfg, s, e)) ==
      if e.Ack? then AckingWorkers(s) - {e.w}
      else if Settles(cfg, s, e) then AckingWorkers(s) + {e.w}
      else AckingWorkers(s)
    ensures e.Ack? ==> e.w in AckingWorkers(s)
    ensures Settles(cfg, s, e) ==> e.w !in AckingWorkers(s)
  {
  }

  /** Every working step lowers the measure. */
  lemma {:induction false} MeasureDrops(cfg: Config, s: State, e: Event)
    requires Orderly(cfg, s) && Enabled(cfg, s, e) && FaultFree(e) && Work(e)
    ensures Measure(cfg, Do(cfg, s, e)) < Measure(cfg, s)
  {
    var s' := Do(cfg, s, e);
    AckingChange(cfg, s, e);
    SameIds(cfg, s, e);
    if e.Ack? {
      forall id: nat | id < s.history.nextId ensures Rank(cfg, s', id) == Rank(cfg, s, id) {
        OtherRankKept(cfg, s, e, id);
      }
      TotalSame(cfg, s, s', s.history.nextId);
    } else {
      SubjectIsLive(cfg, s, e);
      var subject := s.copies[Subject(s, e)].task.id;
      SubjectRankDrops(cfg, s, e);
      forall id: nat | id < s.history.nextId && id != subject ensures Rank(cfg, s', id) == Rank(cfg, s, id) {
        OtherRankKept(cfg, s, e, id);
      }
      TotalDrops(cfg, s, s', s.history.nextId, subject, if Settles(cfg, s, e) then 2 else 1);
    }
  }

  lemma {:induction false} SameIds(cfg: Config, s: State, e: Event)
    requires Enabled(cfg, s, e)
    ensures Do(cfg, s, e).history.nextId == if e.Produce? then s.history.nextId + 1 else s.history.nextId
  {
    MoveKinds(cfg, s, e);
    ApplyChanges(cfg.policy, s.history, MoveOf(cfg, s, e));
  }

  /** Other steps leave it alone; a new message adds at most six steps for each attempt it may take. */
  lemma {:induction false} MeasureOtherwise(cfg: Config, s: State, e: Event)
    requires Orderly(cfg, s) && Enabled(cfg, s, e) && FaultFree(e) && !Work(e)
    ensures Measure(cfg, Do(cfg, s, e)) <= Measure(cfg, s)
              + if e.Produce? then 6 * Remaining(cfg.policy, AttemptOf(e.header)) + 4 else 0
  {
    var s' := Do(cfg, s, e);
    AckingChange(cfg, s, e);
    SameIds(cfg, s, e);
    forall id: nat | id < s.history.nextId ensures Rank(cfg, s', id) == Rank(cfg, s, id) {
      OtherRankKept(cfg, s, e, id);
    }
    TotalSame(cfg, s, s', s.history.nextId);
    if e.Produce? {
      UniqueKept(cfg, s, e);
      RankIs(cfg, s', s.history.nextId, s.nextNo);
      NamesAreDistinct(cfg.queue, 0);
    }
  }

  function WorkCount(events: seq<Event>): nat {
    if |events| == 0 then 0 else WorkCount(events[..|events| - 1]) + One(Work(events[|events| - 1]))
  }

  /** Six steps for each attempt of each message produced. */
  function Budget(p: RetryPolicy, events: seq<Event>): int {
    if |events| == 0 then 0
    else Budget(p, events[..|events| - 1]) + (if events[|events| - 1].Produce? then 6 * p.maxAttempts else 0)
  }

  lemma {:induction false} StepBound(cfg: Config, s: State, e: Event)
    requires Orderly(cfg, s) && Enabled(cfg, s, e) && FaultFree(e) && (e.Produce? ==> AttemptOf(e.header) == 1)
    ensures One(Work(e)) + Measure(cfg, Do(cfg, s, e))
            <= Measure(cfg, s) + if e.Produce? then 6 * cfg.policy.maxAttempts else 0
  {
    if Work(e) { MeasureDrops(cfg, s, e); } else { MeasureOtherwise(cfg, s, e); }
  }

  /** A fault-free run makes at most 6 * maxAttempts working steps for each message it took in without an attempt
      header, whatever the schedule and whatever the handler answers. */
  lemma {:induction false} WorkIsBounded(cfg: Config, leftover: Registry, events: seq<Event>)
    requires FaultFreeRun(cfg, leftover, events)
    requires forall i :: 0 <= i < |events| && events[i].Produce? ==> AttemptOf(events[i].header) == 1
    ensures WorkCount(events) + Measure(cfg, Run(cfg, leftover, events).value) <= Budget(cfg.policy, events)
    decreases |events|
  {
    if |events| > 0 {
      var before, e := events[..|events| - 1], events[|events| - 1];
      WorkIsBounded(cfg, leftover, before);
      FaultFreeOrderly(cfg, leftover, before);
      StepBound(cfg, Run(cfg, leftover, before).value, e);
    } else {
      assert AckingWorkers(Init(leftover)) == {};
    }
  }

  // ---------------------------------------------------------------- progress

  /** With the measure at zero every message has been sent, had its failure accepted, or is a dead letter. */
  lemma {:induction false} ZeroMeansSettled(cfg: Config, s: State, id: nat)
    requires Orderly(cfg, s) && Measure(cfg, s) == 0 && id < s.history.nextId
    ensures id in s.history.sent || id in s.history.accepted || InDeadLetterQueue(cfg, s, id)
  {
    RankBelowTotal(cfg, s, id, s.history.nextId);
    assert Covered(s, id);
    if HasLiveCopy(s, id) {
      var no: nat :| IsLiveFor(s, id, no);
      RankIs(cfg, s, id, no);
      assert InDeadLetters(cfg, s, no);
    }
  }

  lemma {:induction false} RankBelowTotal(cfg: Config, s: State, id: nat, n: nat)
    requires id < n
    ensures Rank(cfg, s, id) <= TotalRank(cfg, s, n)
    decreases n
  {
    if id < n - 1 { RankBelowTotal(cfg, s, id, n - 1); }
  }

  lemma {:induction false} SomeRankPositive(cfg: Config, s: State, n: nat) returns (id: nat)
    requires TotalRank(cfg, s, n) > 0
    ensures id < n && Rank(cfg, s, id) > 0
    decreases n
  {
    if Rank(cfg, s, n - 1) > 0 { id := n - 1; } else { id := SomeRankPositive(cfg, s, n - 1); }
  }

  /** The oldest copy in the queue of `no`. */
  lemma {:induction false} HeadOf(s: State, no: nat) returns (head: nat)
    requires no in s.copies && s.copies[no].place.Ready?
    ensures head in s.copies && head <= no && s.copies[head].place.Ready?
    ensures s.copies[head].place.queue == s.copies[no].place.queue
    ensures IsHead(s, head)
    decreases no
  {
    if k :| k in s.copies && k < no && s.copies[k].place.Ready? && s.copies[k].place.queue == s.copies[no].place.queue {
      head := HeadOf(s, k);
    } else {
      head := no;
    }
  }

  /** What a busy consumer can do next. */
  lemma {:induction false} BusyWorkerProgress(cfg: Config, s: State, w: nat, env: Env) returns (e: Event)
    requires Orderly(cfg, s) && w in s.workers && !s.workers[w].stage.Idle?
    ensures FaultFree(e) && Work(e) && Enabled(cfg, s, e) && (e.Process? ==> e.env == env)
  {
    match s.workers[w].stage {
      case Working(_, _) => e := Process(w, env);
      case Publishing(_, _, _, _) =>
        TargetDeclared(cfg, s, w);
        e := Publish(w, Confirmed);
      case Acking(_) => e := Ack(w, true);
    }
  }

  /** A message that is not settled can always move on, after waiting out a TTL at most, whatever the outside will
      answer. */
  lemma {:induction false} CanProgress(cfg: Config, s: State, env: Env) returns (to: int, e: Event)
    requires Orderly(cfg, s) && s.workers != map[] && Measure(cfg, s) > 0
    ensures Enabled(cfg, s, Elapse(to)) && FaultFree(e) && Work(e) && Enabled(cfg, Do(cfg, s, Elapse(to)), e)
    ensures e.Process? ==> e.env == env
  {
    to := s.history.now;
    assert Do(cfg, s, Elapse(to)) == s;
    var w :| w in s.workers;
    if v :| v in s.workers && !s.workers[v].stage.Idle? {
      e := BusyWorkerProgress(cfg, s, v, env);
    } else {
      assert AckingWorkers(s) == {};
      var id := SomeRankPositive(cfg, s, s.history.nextId);
      var no: nat :| IsLiveFor(s, id, no);
      RankIs(cfg, s, id, no);
      assert TimingFits(cfg, s, s.copies[no]);
      if s.copies[no].place.queue == cfg.queue {
        e := Deliver(w, no);
      } else {
        var head := HeadOf(s, no);
        assert TimingFits(cfg, s, s.copies[head]);
        to := Max(to, s.copies[head].place.since + s.args[s.copies[head].place.queue].ttlMillis * MILLISECOND);
        e := Expire(head);
      }
    }
  }

  ghost predicate Settled(cfg: Config, s: State, id: nat) {
    id in s.history.sent || id in s.history.accepted || InDeadLetterQueue(cfg, s, id)
  }

  lemma {:induction false} ProgressStep(cfg: Config, s: State, env: Env) returns (to: int, e: Event, s2: State)
    requires Orderly(cfg, s) && s.workers != map[] && Measure(cfg, s) > 0
    ensures FaultFree(e) && Work(e) && Continue(cfg, s, [Elapse(to), e]) == Some(s2) && (e.Process? ==> e.env == env)
    ensures Orderly(cfg, s2) && s2.workers != map[] && s2.history.nextId == s.history.nextId
    ensures Measure(cfg, s2) < Measure(cfg, s)
  {
    to, e := CanProgress(cfg, s, env);
    var s1 := AfterWaiting(cfg, s, to);
    s2 := AfterWork(cfg, s1, e);
    ContinueTwo(cfg, s, Elapse(to), e);
  }

  lemma {:induction false} AfterWaiting(cfg: Config, s: State, to: int) returns (s1: State)
    requires Orderly(cfg, s) && s.workers != map[] && Enabled(cfg, s, Elapse(to))
    ensures s1 == Do(cfg, s, Elapse(to)) && Orderly(cfg, s1) && s1.workers != map[]
    ensures s1.history.nextId == s.history.nextId && Measure(cfg, s1) <= Measure(cfg, s)
  {
    s1 := Do(cfg, s, Elapse(to));
    OrderlyKept(cfg, s, Elapse(to));
    MeasureOtherwise(cfg, s, Elapse(to));
  }

  lemma {:induction false} AfterWork(cfg: Config, s: State, e: Event) returns (s1: State)
    requires Orderly(cfg, s) && s.workers != map[] && Enabled(cfg, s, e) && FaultFree(e) && Work(e)
    ensures s1 == Do(cfg, s, e) && Orderly(cfg, s1) && s1.workers != map[]
    ensures s1.history.nextId == s.history.nextId && Measure(cfg, s1) < Measure(cfg, s)
  {
    s1 := Do(cfg, s, e);
    OrderlyKept(cfg, s, e);
    MeasureDrops(cfg, s, e);
    SameIds(cfg, s, e);
    WorkersStay(cfg, s, e);
  }

  lemma {:induction false} ContinueTwo(cfg: Config, s: State, first: Event, second: Event)
    requires Enabled(cfg, s, first) && Enabled(cfg, Do(cfg, s, first), second)
    ensures Continue(cfg, s, [first, second]) == Some(Do(cfg, Do(cfg, s, first), second))
  {
    ContinueOne(cfg, s, first, [second]);
    ContinueOne(cfg, Do(cfg, s, first), second, []);
    assert [first, second] == [first] + [second] && [second] == [second] + [];
  }

  ghost predicate AllSettled(cfg: Config, s: State) { forall id: nat :: id < s.history.nextId ==> Settled(cfg, s, id) }

  lemma {:induction false} ZeroSettlesAll(cfg: Config, s: State)
    requires Orderly(cfg, s) && Measure(cfg, s) == 0
    ensures AllSettled(cfg, s)
  {
    forall id: nat | id < s.history.nextId ensures Settled(cfg, s, id) { ZeroMeansSettled(cfg, s, id); }
  }

  /** Fault-free steps without new messages; a handler called at step i meets the answers envs(k + i). */
  predicate AnsweredBy(events: seq<Event>, envs: nat -> Env, k: nat) {
    forall i :: 0 <= i < |events| ==>
      FaultFree(events[i]) && !events[i].Produce? && (events[i].Process? ==> events[i].env == envs(k + i))
  }

  lemma {:induction false} AnsweredAhead(to: int, e: Event, rest: seq<Event>, envs: nat -> Env, k: nat)
    requires FaultFree(e) && !e.Produce? && (e.Process? ==> e.env == envs(k + 1)) && AnsweredBy(rest, envs, k + 2)
    ensures AnsweredBy([Elapse(to), e] + rest, envs, k)
  {
    var all := [Elapse(to), e] + rest;
    forall i | 0 <= i < |all|
      ensures FaultFree(all[i]) && !all[i].Produce? && (all[i].Process? ==> all[i].env == envs(k + i))
    {
      if i >= 2 { assert all[i] == rest[i - 2] && k + i == (k + 2) + (i - 2); }
    }
  }

  /** From any fault-free state with a consumer the messages that are in can all be settled by going on without faults,
      whatever the outside answers: `envs` gives the answers it will give, step by step. */
  lemma {:induction false} EverythingSettles(cfg: Config, s: State, envs: nat -> Env, k: nat)
    returns (events: seq<Event>)
    requires Orderly(cfg, s) && s.workers != map[]
    ensures AnsweredBy(events, envs, k)
    ensures var after := Continue(cfg, s, events);
            && after.Some? && Orderly(cfg, after.value) && after.value.history.nextId == s.history.nextId
            && AllSettled(cfg, after.value)
    decreases Measure(cfg, s)
  {
    if Measure(cfg, s) == 0 {
      events := [];
      ZeroSettlesAll(cfg, s);
    } else {
      var to, e, s2 := ProgressStep(cfg, s, envs(k + 1));
      var rest := EverythingSettles(cfg, s2, envs, k + 2);
      events := [Elapse(to), e] + rest;
      AnsweredAhead(to, e, rest, envs, k);
      ContinueConcat(cfg, s, [Elapse(to), e], rest);
    }
  }

  // ---------------------------------------------------------------- every schedule

  /** No working step is possible, now or after any wait. */
  ghost predicate Stuck(cfg: Config, s: State) {
    forall to: int, e: Event :: Enabled(cfg, s, Elapse(to)) && FaultFree(e) && Work(e) ==>
      !Enabled(cfg, Do(cfg, s, Elapse(to)), e)
  }

  lemma {:induction false} StuckIsSettled(cfg: Config, s: State)
    requires Orderly(cfg, s) && s.workers != map[] && Stuck(cfg, s)
    ensures AllSettled(cfg, s)
  {
    if Measure(cfg, s) > 0 {
      var to, e := CanProgress(cfg, s, Env(None, true));
      assert false;
    }
    ZeroSettlesAll(cfg, s);
  }

  /** However it is scheduled and whatever the outside answers, a fault-free run that cannot go on has settled every
      message. */
  lemma {:induction false} MaximalRunSettles(cfg: Config, leftover: Registry, events: seq<Event>)
    requires FaultFreeRun(cfg, leftover, events)
    requires Run(cfg, leftover, events).value.workers != map[] && Stuck(cfg, Run(cfg, leftover, events).value)
    ensures AllSettled(cfg, Run(cfg, leftover, events).value)
  {
    FaultFreeOrderly(cfg, leftover, events);
    StuckIsSettled(cfg, Run(cfg, leftover, events).value);
  }

  /** And it gets there: whatever the schedule, going on without faults and without new messages makes at most as many
      working steps as the measure. */
  lemma {:induction false} ScheduleIsBounded(cfg: Config, s: State, events: seq<Event>)
    requires Orderly(cfg, s) && Continue(cfg, s, events).Some?
    requires forall i :: 0 <= i < |events| ==> FaultFree(events[i]) && !events[i].Produce?
    ensures Orderly(cfg, Continue(cfg, s, events).value)
    ensures WorkAhead(events) + Measure(cfg, Continue(cfg, s, events).value) <= Measure(cfg, s)
    decreases |events|
  {
    if |events| > 0 {
      OrderlyKept(cfg, s, events[0]);
      StepBound(cfg, s, events[0]);
      ScheduleIsBounded(cfg, Do(cfg, s, events[0]), events[1..]);
    }
  }

  function WorkAhead(events: seq<Event>): nat {
    if |events| == 0 then 0 else One(Work(events[0])) + WorkAhead(events[1..])
  }

  lemma {:induction false} WorkersStay(cfg: Config, s: State, e: Event)
    requires Enabled(cfg, s, e) && s.workers != map[]
    ensures Do(cfg, s, e).workers != map[]
  {
  }
}
