/** The delayed-retry machine both queue transports are meant to be: tasks (id, message, attempt, due) and handler
    calls. */
module DelayedRetry {
  import opened Numbers
  import opened RetryPolicies
  import opened Topologies
  import opened Delivery

  /** Attempt `attempt` at message `id`, not wanted before `due` (nanoseconds). */
  datatype Task = Task(id: nat, message: Message, attempt: int, due: int)

  /** A handler call, by its start time. */
  datatype Call = Call(task: Task, at: int)

  /** The decision to try again, taken once the handler has returned, by its time. */
  datatype Decision = Decision(task: Task, at: int)

  /** Everything that has happened. `origins` holds the task each message entered with. */
  datatype Ledger = Ledger(
    now: int, nextId: nat, origins: map<nat, Task>, scheduled: set<Task>, calls: set<Call>, decisions: set<Decision>,
    sent: set<nat>, accepted: set<nat>, dead: set<nat>)

  datatype End = EndSent | EndAccepted | EndDead

  datatype Move =
    | Wait(to: int)
    | Submit(message: Message, attempt: int)
    | Start(task: Task)
    | Again(task: Task)
    | Finish(task: Task, end: End)
    | Stutter

  const EMPTY := Ledger(0, 0, map[], {}, {}, {}, {}, {}, {})

  /** The next attempt, decided at time `now`: same message, one attempt more, due after the policy's delay. */
  function Successor(p: RetryPolicy, task: Task, now: int): Task {
    Task(task.id, task.message, task.attempt + 1, now + p.Delay(task.attempt))
  }

  ghost predicate Called(l: Ledger, task: Task) { exists c :: c in l.calls && c.task == task }

  /** A call may start less than a millisecond early, the resolution of both transports. */
  ghost predicate Allowed(p: RetryPolicy, l: Ledger, m: Move) {
    match m
    case Wait(to) => l.now <= to
    case Submit(_, attempt) => 1 <= attempt
    case Start(task) => task in l.scheduled && l.now > task.due - MILLISECOND
    case Again(task) => Called(l, task) && p.CanRetry(task.attempt)
    case Finish(task, _) => Called(l, task)
    case Stutter => true
  }

  function Apply(p: RetryPolicy, l: Ledger, m: Move): Ledger {
    match m
    case Wait(to) => l.(now := to)
    case Submit(message, attempt) =>
      var task := Task(l.nextId, message, attempt, l.now);
      l.(nextId := l.nextId + 1, origins := l.origins[l.nextId := task], scheduled := l.scheduled + {task})
    case Start(task) => l.(calls := l.calls + {Call(task, l.now)})
    case Again(task) =>
      l.(scheduled := l.scheduled + {Successor(p, task, l.now)}, decisions := l.decisions + {Decision(task, l.now)})
    case Finish(task, EndSent) => l.(sent := l.sent + {task.id})
    case Finish(task, EndAccepted) => l.(accepted := l.accepted + {task.id})
    case Finish(task, EndDead) => l.(dead := l.dead + {task.id})
    case Stutter => l
  }

  /** The ledger after a sequence of moves, if each is allowed when it is made. */
  ghost function Replay(p: RetryPolicy, moves: seq<Move>): Option<Ledger>
    decreases |moves|
  {
    if |moves| == 0 then Some(EMPTY)
    else match Replay(p, moves[..|moves| - 1])
      case None => None
      case Some(before) =>
        if Allowed(p, before, moves[|moves| - 1]) then Some(Apply(p, before, moves[|moves| - 1])) else None
  }

  // ---------------------------------------------------------------- invariant

  ghost predicate TaskFits(p: RetryPolicy, l: Ledger, t: Task) {
    && t.id < l.nextId && t.id in l.origins
    && t.message == l.origins[t.id].message
    && 1 <= l.origins[t.id].attempt <= t.attempt <= Max(l.origins[t.id].attempt, p.maxAttempts)
  }

  /** `d` is the decision that scheduled `t`. */
  predicate Decides(p: RetryPolicy, d: Decision, t: Task) {
    Successor(p, d.task, d.at) == t && p.CanRetry(d.task.attempt)
  }

  /** `c` is the call after which `d` was taken. */
  predicate TakenAfter(c: Call, d: Decision) { c.task == d.task && c.at <= d.at }

  ghost predicate OriginsFit(l: Ledger) {
    && (forall id: nat :: id in l.origins <==> id < l.nextId)
    && (forall id :: id in l.origins ==> l.origins[id].id == id && l.origins[id] in l.scheduled)
  }

  ghost predicate TasksFit(p: RetryPolicy, l: Ledger) { forall t :: t in l.scheduled ==> TaskFits(p, l, t) }

  ghost predicate Caused(p: RetryPolicy, l: Ledger, t: Task) { exists d :: d in l.decisions && Decides(p, d, t) }

  ghost predicate Grounded(l: Ledger, d: Decision) { d.at <= l.now && exists c :: c in l.calls && TakenAfter(c, d) }

  ghost predicate DecisionsFit(l: Ledger) { forall d :: d in l.decisions ==> Grounded(l, d) }

  ghost predicate RetriesCaused(p: RetryPolicy, l: Ledger) {
    forall t :: t in l.scheduled && t.id in l.origins && t != l.origins[t.id] ==> Caused(p, l, t)
  }

  /** No call starts before its task was decided, or more than the resolution before it is due. */
  ghost predicate CallsFit(p: RetryPolicy, l: Ledger) {
    forall c :: c in l.calls ==>
      && c.task in l.scheduled && c.task.due - MILLISECOND < c.at <= l.now
      && (c.task.id in l.origins && c.task != l.origins[c.task.id] ==> c.task.due - p.Delay(c.task.attempt - 1) <= c.at)
  }

  ghost predicate LedgerInv(p: RetryPolicy, l: Ledger) {
    OriginsFit(l) && TasksFit(p, l) && RetriesCaused(p, l) && CallsFit(p, l) && DecisionsFit(l)
  }

  lemma {:induction false} TasksStayFit(p: RetryPolicy, l: Ledger, m: Move)
    requires LedgerInv(p, l) && Allowed(p, l, m)
    ensures OriginsFit(Apply(p, l, m)) && TasksFit(p, Apply(p, l, m))
  {
    var after := Apply(p, l, m);
    forall t | t in after.scheduled
      ensures TaskFits(p, after, t)
    {
      if t in l.scheduled {
        assert TaskFits(p, l, t);
      } else if m.Again? {
        assert TaskFits(p, l, m.task);
      }
    }
  }

  lemma {:induction false} RetriesStayCaused(p: RetryPolicy, l: Ledger, m: Move)
    requires LedgerInv(p, l) && Allowed(p, l, m)
    ensures RetriesCaused(p, Apply(p, l, m))
  {
    var after := Apply(p, l, m);
    forall t | t in after.scheduled && t.id in after.origins && t != after.origins[t.id]
      ensures Caused(p, after, t)
    {
      if t in l.scheduled {
        assert TaskFits(p, l, t) && Caused(p, l, t);
      } else {
        assert Decision(m.task, l.now) in after.decisions && Decides(p, Decision(m.task, l.now), t);
      }
    }
  }

  lemma {:induction false} DecisionsStayGrounded(p: RetryPolicy, l: Ledger, m: Move)
    requires LedgerInv(p, l) && Allowed(p, l, m)
    ensures DecisionsFit(Apply(p, l, m))
  {
    var after := Apply(p, l, m);
    forall d | d in after.decisions
      ensures Grounded(after, d)
    {
      if d in l.decisions {
        assert Grounded(l, d);
      } else {
        var c :| c in l.calls && c.task == m.task;
        assert TakenAfter(c, d);
      }
    }
  }

  lemma {:induction false} CallsStayFit(p: RetryPolicy, l: Ledger, m: Move)
    requires LedgerInv(p, l) && Allowed(p, l, m)
    ensures CallsFit(p, Apply(p, l, m))
  {
    if m.Start? {
      assert TaskFits(p, l, m.task);
      if m.task != l.origins[m.task.id] {
        assert Caused(p, l, m.task);
        var d :| d in l.decisions && Decides(p, d, m.task);
        assert Grounded(l, d);
      }
    }
    forall c | c in l.calls ensures TaskFits(p, l, c.task) { assert c.task in l.scheduled; }
  }

  lemma {:induction false} ApplyKeepsInv(p: RetryPolicy, l: Ledger, m: Move)
    requires LedgerInv(p, l) && Allowed(p, l, m)
    ensures LedgerInv(p, Apply(p, l, m))
  {
    TasksStayFit(p, l, m);
    RetriesStayCaused(p, l, m);
    DecisionsStayGrounded(p, l, m);
    CallsStayFit(p, l, m);
  }

  /** The invariant holds after any sequence of allowed moves. */
  lemma {:induction false} ReplayInv(p: RetryPolicy, moves: seq<Move>)
    requires Replay(p, moves).Some?
    ensures LedgerInv(p, Replay(p, moves).value)
    decreases |moves|
  {
    if |moves| > 0 {
      ReplayInv(p, moves[..|moves| - 1]);
      ApplyKeepsInv(p, Replay(p, moves[..|moves| - 1]).value, moves[|moves| - 1]);
    }
  }

  /** What no move takes away. */
  ghost predicate Grows(a: Ledger, b: Ledger) {
    && a.scheduled <= b.scheduled && a.calls <= b.calls && a.decisions <= b.decisions
    && a.now <= b.now && a.nextId <= b.nextId
    && a.sent <= b.sent && a.accepted <= b.accepted && a.dead <= b.dead
  }

  lemma {:induction false} ApplyGrows(p: RetryPolicy, l: Ledger, m: Move)
    requires m.Wait? ==> l.now <= m.to
    ensures Grows(l, Apply(p, l, m))
  {
  }

  /** What a move does to the clock, the calls and the next id. */
  lemma {:induction false} ApplyChanges(p: RetryPolicy, l: Ledger, m: Move)
    ensures Apply(p, l, m).now == if m.Wait? then m.to else l.now
    ensures Apply(p, l, m).calls == if m.Start? then l.calls + {Call(m.task, l.now)} else l.calls
    ensures Apply(p, l, m).nextId == if m.Submit? then l.nextId + 1 else l.nextId
  {
  }

  lemma {:induction false} GivenUpByFinish(p: RetryPolicy, l: Ledger, m: Move, id: nat)
    requires id !in l.accepted && id !in l.dead && (id in Apply(p, l, m).accepted || id in Apply(p, l, m).dead)
    ensures m.Finish? && m.task.id == id && !m.end.EndSent?
  {
  }

  // ---------------------------------------------------------------- what the machine guarantees

  /** `previous` is a call of the attempt before c's task, `decidedAt` the time after it when the next attempt was
      decided; c starts no earlier than that time plus the delay, less one millisecond. */
  ghost predicate Follows(p: RetryPolicy, l: Ledger, previous: Call, decidedAt: int, c: Call) {
    && previous in l.calls && Decision(previous.task, decidedAt) in l.decisions
    && p.CanRetry(previous.task.attempt) && Successor(p, previous.task, decidedAt) == c.task
    && previous.at <= decidedAt <= c.at && c.at > decidedAt + p.Delay(previous.task.attempt) - MILLISECOND
  }

  /** Every call after a message's first task follows a call of the attempt before it, of the same message: it starts no
      earlier than the moment that attempt's outcome was applied, plus its delay, less one millisecond. */
  lemma {:induction false} RetrySpacing(p: RetryPolicy, l: Ledger, c: Call) returns (previous: Call, decidedAt: int)
    requires LedgerInv(p, l) && c in l.calls && c.task.id in l.origins && c.task != l.origins[c.task.id]
    ensures Follows(p, l, previous, decidedAt, c)
  {
    assert Caused(p, l, c.task);
    var d :| d in l.decisions && Decides(p, d, c.task);
    assert Grounded(l, d);
    previous :| previous in l.calls && TakenAfter(previous, d);
    decidedAt := d.at;
  }

  /** A call and the decision to try again taken after it. */
  datatype Tried = Tried(call: Call, decidedAt: int)

  /** The steps lead to the call c, each followed by the next. */
  ghost predicate IsHistory(p: RetryPolicy, l: Ledger, steps: seq<Tried>, c: Call) {
    |steps| > 0 ==>
      var last := steps[|steps| - 1];
      Follows(p, l, last.call, last.decidedAt, c) && IsHistory(p, l, steps[..|steps| - 1], last.call)
  }

  function FirstCall(steps: seq<Tried>, c: Call): Call { if |steps| == 0 then c else steps[0].call }

  /** The time between the calls and the decisions after them: the handlers' own. */
  function HandlerTime(steps: seq<Tried>): int {
    if |steps| == 0 then 0
    else HandlerTime(steps[..|steps| - 1]) + steps[|steps| - 1].decidedAt - steps[|steps| - 1].call.at
  }

  lemma {:induction false} LongerHistory(p: RetryPolicy, l: Ledger, before: seq<Tried>, last: Tried, c: Call)
    requires IsHistory(p, l, before, last.call) && Follows(p, l, last.call, last.decidedAt, c)
    ensures var steps := before + [last];
            && IsHistory(p, l, steps, c) && FirstCall(steps, c) == FirstCall(before, last.call)
            && HandlerTime(steps) == HandlerTime(before) + last.decidedAt - last.call.at
  {
    assert (before + [last])[..|before|] == before;
  }

  /** A call of attempt n comes after calls of all the attempts before it, and later than the first of them by the sum
      of their delays and of the time their handlers took, less one millisecond each. */
  lemma {:induction false} WaitsAddUp(p: RetryPolicy, l: Ledger, c: Call, a: int) returns (steps: seq<Tried>)
    requires LedgerInv(p, l) && c in l.calls && c.task.id in l.origins
    requires l.origins[c.task.id].attempt <= a <= c.task.attempt
    ensures |steps| == c.task.attempt - a && IsHistory(p, l, steps, c) && HandlerTime(steps) >= 0
    ensures var first := FirstCall(steps, c);
            && first in l.calls && first.task.id == c.task.id && first.task.attempt == a
            && first.task.message == c.task.message == l.origins[c.task.id].message
            && c.at >= first.at + HandlerTime(steps) + TotalWait(p, a, c.task.attempt) - |steps| * MILLISECOND
    decreases c.task.attempt - a
  {
    assert TaskFits(p, l, c.task);
    if a == c.task.attempt {
      steps := [];
    } else {
      var previous, decidedAt := RetrySpacing(p, l, c);
      var before := WaitsAddUp(p, l, previous, a);
      steps := before + [Tried(previous, decidedAt)];
      LongerHistory(p, l, before, Tried(previous, decidedAt), c);
      LaterByOneDelay(p, l, previous, decidedAt, c, FirstCall(before, previous).at, HandlerTime(before), |before|, a);
    }
  }

  lemma {:induction false} LaterByOneDelay(p: RetryPolicy, l: Ledger, previous: Call, decidedAt: int, c: Call,
      start: int, handlers: int, n: nat, a: int)
    requires Follows(p, l, previous, decidedAt, c) && a <= previous.task.attempt
    requires previous.at >= start + handlers + TotalWait(p, a, previous.task.attempt) - n * MILLISECOND
    ensures c.at >= start + (handlers + decidedAt - previous.at) + TotalWait(p, a, c.task.attempt)
                    - (n + 1) * MILLISECOND
  {
    OneMore(n + 1, MILLISECOND);
  }

  ghost predicate CalledOn(l: Ledger, id: nat, attempt: int) {
    exists c :: c in l.calls && c.task.id == id && c.task.attempt == attempt
  }

  /** A message called on an attempt was called on all the attempts before it, from the one it came with. */
  lemma {:induction false} AllAttemptsCalled(p: RetryPolicy, l: Ledger, task: Task)
    requires LedgerInv(p, l) && Called(l, task) && task.id in l.origins
    ensures forall a :: l.origins[task.id].attempt <= a <= task.attempt ==> CalledOn(l, task.id, a)
  {
    var c :| c in l.calls && c.task == task;
    forall a | l.origins[task.id].attempt <= a <= task.attempt
      ensures CalledOn(l, task.id, a)
    {
      var steps := WaitsAddUp(p, l, c, a);
      assert FirstCall(steps, c) in l.calls;
    }
  }

  /** The message was called on every attempt it could have, from the one it came with to maxAttempts. */
  ghost predicate AttemptsUsedUp(p: RetryPolicy, l: Ledger, id: nat) {
    id in l.origins && forall a :: l.origins[id].attempt <= a <= Max(l.origins[id].attempt, p.maxAttempts) ==>
      CalledOn(l, id, a)
  }

  /** A message that enters on attempt 1 is never called on an attempt above maxAttempts. */
  lemma {:induction false} AttemptsBounded(p: RetryPolicy, l: Ledger, c: Call)
    requires LedgerInv(p, l) && p.Configured() && c in l.calls && c.task.id in l.origins
    requires l.origins[c.task.id].attempt == 1
    ensures 1 <= c.task.attempt <= p.maxAttempts
  {
  }

  // ---------------------------------------------------------------- over the moves

  /** The time when move i is made. */
  ghost function TimeOf(p: RetryPolicy, moves: seq<Move>, i: nat): int
    requires i <= |moves| && Replay(p, moves[..i]).Some?
  {
    Replay(p, moves[..i]).value.now
  }

  lemma {:induction false} ReplayPrefix(p: RetryPolicy, moves: seq<Move>, i: nat)
    requires Replay(p, moves).Some? && i <= |moves|
    ensures Replay(p, moves[..i]).Some?
    ensures i < |moves| ==> Allowed(p, Replay(p, moves[..i]).value, moves[i])
    decreases |moves|
  {
    if i < |moves| {
      var before := moves[..|moves| - 1];
      assert before[..i] == moves[..i];
      if i < |before| { ReplayPrefix(p, before, i); }
    } else {
      assert moves[..i] == moves;
    }
  }

  /** Every decision in the ledger is a move that was made at that time. */
  lemma {:induction false} DecisionMade(p: RetryPolicy, moves: seq<Move>, d: Decision) returns (i: nat)
    requires Replay(p, moves).Some? && d in Replay(p, moves).value.decisions
    ensures i < |moves| && moves[i] == Again(d.task)
    ensures Replay(p, moves[..i]).Some? && TimeOf(p, moves, i) == d.at
    decreases |moves|
  {
    var before := moves[..|moves| - 1];
    if d in Replay(p, before).value.decisions {
      i := DecisionMade(p, before, d);
      assert before[..i] == moves[..i];
    } else {
      i := |moves| - 1;
    }
  }

  /** A start after a message's first task is preceded by the decision that scheduled it, and comes no earlier than the
      time of that decision plus the delay, less one millisecond. */
  lemma {:induction false} StartFollowsDecision(p: RetryPolicy, moves: seq<Move>, j: nat) returns (i: nat)
    requires Replay(p, moves).Some? && j < |moves| && moves[j].Start? && Replay(p, moves[..j]).Some?
    requires var l := Replay(p, moves[..j]).value;
             moves[j].task.id in l.origins ==> moves[j].task != l.origins[moves[j].task.id]
    ensures i < j && moves[i].Again? && Replay(p, moves[..i]).Some?
    ensures Successor(p, moves[i].task, TimeOf(p, moves, i)) == moves[j].task && p.CanRetry(moves[i].task.attempt)
    ensures TimeOf(p, moves, j) > TimeOf(p, moves, i) + p.Delay(moves[i].task.attempt) - MILLISECOND
  {
    var l := Replay(p, moves[..j]).value;
    var task := moves[j].task;
    ReplayPrefix(p, moves, j);
    ReplayInv(p, moves[..j]);
    assert TaskFits(p, l, task) && Caused(p, l, task);
    var d :| d in l.decisions && Decides(p, d, task);
    i := DecisionMade(p, moves[..j], d);
    assert moves[..j][..i] == moves[..i];
  }
}
