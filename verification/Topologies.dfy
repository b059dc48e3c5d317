/** internal/infrastructure/messaging/rabbitmq_topology.go: the queues of one consumer, their names and their
    arguments. */
module Topologies {
  import opened Numbers
  import opened RetryPolicies

  const MILLISECOND: int64 := 1_000_000
  const MINUTE: int64 := 60 * SECOND
  const HOUR: int64 := 60 * MINUTE

  /** time.Duration.Milliseconds. */
  function Millis(d: int64): int64 { TruncDiv(d, MILLISECOND) }

  function CompactDuration(d: int64): string {
    if d % HOUR == 0 then Itoa(TruncDiv(d, HOUR)) + "h"
    else if d % MINUTE == 0 then Itoa(TruncDiv(d, MINUTE)) + "m"
    else if d % SECOND == 0 then Itoa(TruncDiv(d, SECOND)) + "s"
    else Itoa(Millis(d)) + "ms"
  }

  function RetryQueueName(queue: string, delay: int64): string { queue + ".retry." + CompactDuration(delay) }

  datatype Topology = Topology(queue: string, deadLetter: string, retryDelays: seq<int64>) {

    /** slices.IndexFunc with "waits at least delay"; -1 when there is none. */
    function FirstAtLeast(delay: int64, from: nat): (i: int)
      requires from <= |retryDelays|
      ensures i == -1 || from <= i < |retryDelays|
      ensures i >= 0 ==> retryDelays[i] >= delay && forall j :: from <= j < i ==> retryDelays[j] < delay
      ensures i < 0 ==> forall j :: from <= j < |retryDelays| ==> retryDelays[j] < delay
      decreases |retryDelays| - from
    {
      if from == |retryDelays| then -1 else if retryDelays[from] >= delay then from else FirstAtLeast(delay, from + 1)
    }

    /** The index the source looks up; without retry queues it is -1, and indexing panics. */
    function RetryIndex(delay: int64): int {
      var index := FirstAtLeast(delay, 0);
      if index < 0 then |retryDelays| - 1 else index
    }

    function RetryQueue(delay: int64): string
      requires |retryDelays| > 0
    {
      RetryQueueName(queue, retryDelays[RetryIndex(delay)])
    }

    function Declarations(): seq<(string, QueueArgs)> {
      [(queue, Durable), (deadLetter, Durable)]
      + seq(|retryDelays|, i requires 0 <= i < |retryDelays| =>
          (RetryQueueName(queue, retryDelays[i]), Delayed(Millis(retryDelays[i]), queue)))
    }

    method RetryQueues() returns (names: seq<string>)
      ensures |names| == |retryDelays|
      ensures forall i :: 0 <= i < |names| ==>
                (names[i], Delayed(Millis(retryDelays[i]), queue)) == Declarations()[i + 2]
    {
      names := seq(|retryDelays|, _ => "");
      for i := 0 to |retryDelays|
        invariant |names| == |retryDelays|
        invariant forall j :: 0 <= j < i ==> names[j] == RetryQueueName(queue, retryDelays[j])
      {
        names := names[i := RetryQueueName(queue, retryDelays[i])];
      }
    }
  }

  function NewTopology(queue: string, retryDelays: seq<int64>): Topology {
    Topology(queue, queue + ".dlq", retryDelays)
  }

  function TopologyOf(queue: string, policy: RetryPolicy): Topology { NewTopology(queue, policy.Delays()) }

  // ---------------------------------------------------------------- the queue a retry goes to

  lemma {:induction false} RetryIndexAgrees(t: Topology, p: RetryPolicy, attempt: int)
    requires t.retryDelays == p.Delays() && p.Sound() && 1 <= attempt && p.CanRetry(attempt)
    ensures var i := t.RetryIndex(p.Delay(attempt));
            0 <= i < |t.retryDelays| && t.retryDelays[i] == p.Delay(attempt) && i == t.FirstAtLeast(p.Delay(attempt), 0)
  {
    DelaysAreTheDistinctWaits(p);
    var d := p.Delay(attempt);
    assert d in p.Delays();
    var j :| 0 <= j < |t.retryDelays| && t.retryDelays[j] == d;
    assert t.FirstAtLeast(d, 0) == j;
  }

  /** The queue of every allowed retry is declared and waits exactly Delay(attempt): the longest-queue fallback is never
      taken. */
  lemma {:induction false} RetryQueueAgrees(queue: string, p: RetryPolicy, attempt: int)
    requires p.Sound() && 1 <= attempt && p.CanRetry(attempt)
    ensures var t := TopologyOf(queue, p); var i := t.FirstAtLeast(p.Delay(attempt), 0);
            && 0 <= i < |t.retryDelays| && t.retryDelays[i] == p.Delay(attempt)
            && t.RetryQueue(p.Delay(attempt)) == RetryQueueName(queue, p.Delay(attempt))
            && t.Declarations()[i + 2] == (t.RetryQueue(p.Delay(attempt)), Delayed(Millis(p.Delay(attempt)), queue))
  {
    RetryIndexAgrees(TopologyOf(queue, p), p, attempt);
  }

  /** The lookup relies on attempts being at least 1: with one attempt only, attempt 0 may retry and there is no
      queue. */
  lemma {:induction false} RetryQueueNeedsPositiveAttempt(queue: string, p: RetryPolicy)
    requires p.Sound()
    ensures |TopologyOf(queue, p).retryDelays| == 0 <==> p.maxAttempts == 1
    ensures p.CanRetry(0)
  {
  }

  // ---------------------------------------------------------------- names

  function SuffixMillis(s: string, suffix: nat, unit: int): Option<int>
    requires suffix <= |s|
  {
    match Atoi(s[..|s| - suffix]) case None => None case Some(n) => Some(n * unit)
  }

  /** Reads a compact duration back, in milliseconds. */
  function ParseCompact(s: string): Option<int> {
    if |s| >= 2 && s[|s| - 2..] == "ms" then SuffixMillis(s, 2, 1)
    else if |s| >= 1 && s[|s| - 1] == 'h' then SuffixMillis(s, 1, 3_600_000)
    else if |s| >= 1 && s[|s| - 1] == 'm' then SuffixMillis(s, 1, 60_000)
    else if |s| >= 1 && s[|s| - 1] == 's' then SuffixMillis(s, 1, 1_000)
    else None
  }

  lemma {:induction false} ParseUnit(n: int64, letter: char, suffix: string, unit: int)
    requires (suffix == "ms" && unit == 1)
              || (suffix == [letter] && (letter, unit) in {('h', 3_600_000), ('m', 60_000), ('s', 1_000)})
    ensures ParseCompact(Itoa(n) + suffix) == Some(n * unit)
  {
    AtoiItoa(n);
    var s := Itoa(n) + suffix;
    assert s[..|s| - |suffix|] == Itoa(n);
    assert IsDigit(Itoa(n)[|Itoa(n)| - 1]);
    assert |s| >= 2 && (s[|s| - 2..] == "ms" <==> s[|s| - 2] == 'm' && s[|s| - 1] == 's');
  }

  lemma {:induction false} WholeUnits(d: int64, unit: int64, millis: int64)
    requires (unit, millis) in {(HOUR, 3_600_000), (MINUTE, 60_000), (SECOND, 1_000)}
    requires d % unit == 0
    ensures TruncDiv(d, unit) * millis == Millis(d)
  {
    var q := d / unit;
    assert d == q * unit;
  }

  /** A compact duration determines the whole milliseconds of the delay, that is, the queue's x-message-ttl. */
  lemma {:induction false} CompactDurationDeterminesTtl(d: int64)
    ensures ParseCompact(CompactDuration(d)) == Some(Millis(d))
  {
    if d % HOUR == 0 {
      WholeUnits(d, HOUR, 3_600_000);
      ParseUnit(TruncDiv(d, HOUR), 'h', "h", 3_600_000);
    } else if d % MINUTE == 0 {
      WholeUnits(d, MINUTE, 60_000);
      ParseUnit(TruncDiv(d, MINUTE), 'm', "m", 60_000);
    } else if d % SECOND == 0 {
      WholeUnits(d, SECOND, 1_000);
      ParseUnit(TruncDiv(d, SECOND), 's', "s", 1_000);
    } else {
      ParseUnit(Millis(d), 's', "ms", 1);
    }
  }

  /** The unit is the largest of hours, minutes and seconds of which the delay is a whole number, or milliseconds, cut
      off, when it is not whole seconds. */
  lemma {:induction false} CompactDurationUnits(k: int64, d: int64)
    requires 0 <= d
    ensures d == k * 3_600 * SECOND ==> CompactDuration(d) == Itoa(k) + "h"
    ensures d == k * 60 * SECOND && k % 60 != 0 ==> CompactDuration(d) == Itoa(k) + "m"
    ensures d == k * SECOND && k % 60 != 0 ==> CompactDuration(d) == Itoa(k) + "s"
    ensures k * 1_000_000 <= d < (k + 1) * 1_000_000 && d % SECOND != 0 ==> CompactDuration(d) == Itoa(k) + "ms"
  {
    if d == k * 3_600 * SECOND {
      WholeHours(k, d);
    } else if d == k * 60 * SECOND && k % 60 != 0 {
      WholeMinutes(k, d);
    }
    if d == k * SECOND && k % 60 != 0 { WholeSeconds(k, d); }
    if k * 1_000_000 <= d < (k + 1) * 1_000_000 && d % SECOND != 0 {
      NoLargerUnit(d);
      InMillis(k, d);
    }
  }

  lemma {:induction false} WholeHours(k: int64, d: int64)
    requires 0 <= d == k * 3_600 * SECOND
    ensures d % HOUR == 0 && TruncDiv(d, HOUR) == k
  {
  }

  lemma {:induction false} WholeMinutes(k: int64, d: int64)
    requires 0 <= d == k * 60 * SECOND && k % 60 != 0
    ensures d % HOUR != 0 && d % MINUTE == 0 && TruncDiv(d, MINUTE) == k
  {
    assert d == k / 60 * HOUR + k % 60 * MINUTE;
  }

  lemma {:induction false} WholeSeconds(k: int64, d: int64)
    requires 0 <= d == k * SECOND && k % 60 != 0
    ensures d % HOUR != 0 && d % MINUTE != 0 && d % SECOND == 0 && TruncDiv(d, SECOND) == k
  {
    assert d == k / 60 * MINUTE + k % 60 * SECOND;
    NoLargerUnit(d);
  }

  lemma {:induction false} NoLargerUnit(d: int64)
    ensures d % HOUR == 0 ==> d % MINUTE == 0
    ensures d % MINUTE == 0 ==> d % SECOND == 0
  {
    if d % HOUR == 0 { HoursAreMinutes(d / HOUR); }
    if d % MINUTE == 0 { MinutesAreSeconds(d / MINUTE); }
  }

  lemma {:induction false} HoursAreMinutes(k: int)
    ensures (k * HOUR) % MINUTE == 0
  {
    assert k * HOUR == 60 * k * MINUTE;
  }

  lemma {:induction false} MinutesAreSeconds(k: int)
    ensures (k * MINUTE) % SECOND == 0
  {
    assert k * MINUTE == 60 * k * SECOND;
  }

  lemma {:induction false} InMillis(k: int, d: int64)
    requires 0 <= d && k * 1_000_000 <= d < (k + 1) * 1_000_000
    ensures Millis(d) == k
  {
  }

  /** The retry queue for any delay: the shortest one that waits at least that long, and the longest if none does. */
  lemma {:induction false} RetryQueueIsNearest(t: Topology, delay: int64) returns (i: nat)
    requires |t.retryDelays| > 0
    requires forall j, k :: 0 <= j < k < |t.retryDelays| ==> t.retryDelays[j] < t.retryDelays[k]
    ensures i < |t.retryDelays| && t.RetryQueue(delay) == t.queue + ".retry." + CompactDuration(t.retryDelays[i])
    ensures if exists d :: d in t.retryDelays && d >= delay
            then t.retryDelays[i] >= delay && forall d :: d in t.retryDelays && d >= delay ==> t.retryDelays[i] <= d
            else forall d :: d in t.retryDelays ==> d <= t.retryDelays[i]
  {
    i := t.RetryIndex(delay);
    forall d | d in t.retryDelays
      ensures t.FirstAtLeast(delay, 0) >= 0 && d >= delay ==> t.retryDelays[i] <= d
      ensures t.FirstAtLeast(delay, 0) < 0 ==> d < delay && d <= t.retryDelays[i]
    {
      var j :| 0 <= j < |t.retryDelays| && t.retryDelays[j] == d;
    }
    assert t.retryDelays[i] in t.retryDelays;
  }

  /** Two retry queues of one main queue with equal names have equal TTLs, whatever policies they come from. */
  lemma {:induction false} NameDeterminesTtl(queue: string, d: int64, e: int64)
    requires RetryQueueName(queue, d) == RetryQueueName(queue, e)
    ensures Millis(d) == Millis(e)
  {
    var n := |queue + ".retry."|;
    assert RetryQueueName(queue, d)[n..] == CompactDuration(d);
    assert RetryQueueName(queue, e)[n..] == CompactDuration(e);
    CompactDurationDeterminesTtl(d);
    CompactDurationDeterminesTtl(e);
  }

  /** No retry queue is the main queue or the dead-letter queue, and those two differ. */
  lemma {:induction false} NamesAreDistinct(queue: string, d: int64)
    ensures queue != queue + ".dlq" && RetryQueueName(queue, d) != queue && RetryQueueName(queue, d) != queue + ".dlq"
  {
  }

  // ---------------------------------------------------------------- declaring

  /** The arguments a queue is declared with; a delayed queue dead-letters expired messages to `target`. */
  datatype QueueArgs = Durable | Delayed(ttlMillis: int64, target: string)

  /** The broker's queues. Declaring a known name again succeeds only with the arguments it already has. */
  type Registry = map<string, QueueArgs>

  function DeclareQueue(reg: Registry, name: string, args: QueueArgs): Option<Registry> {
    if name !in reg then Some(reg[name := args]) else if reg[name] == args then Some(reg) else None
  }

  /** The registry after declaring list[i..] in order up to the first refusal, and whether all were accepted. */
  function DeclareFrom(reg: Registry, list: seq<(string, QueueArgs)>, i: nat): (Registry, bool)
    requires i <= |list|
    decreases |list| - i
  {
    if i == |list| then (reg, true)
    else match DeclareQueue(reg, list[i].0, list[i].1)
      case None => (reg, false)
      case Some(after) => DeclareFrom(after, list, i + 1)
  }

  function DeclareAll(reg: Registry, list: seq<(string, QueueArgs)>): (Registry, bool) { DeclareFrom(reg, list, 0) }

  /** What any number of earlier runs with any policies leaves behind: every name has the arguments it implies. */
  ghost predicate Consistent(reg: Registry, queue: string) {
    && (queue in reg ==> reg[queue] == Durable)
    && (queue + ".dlq" in reg ==> reg[queue + ".dlq"] == Durable)
    && forall d: int64 :: RetryQueueName(queue, d) in reg ==> reg[RetryQueueName(queue, d)] == Delayed(Millis(d), queue)
  }

  lemma {:induction false} DurableKeepsConsistent(reg: Registry, queue: string, name: string)
    requires Consistent(reg, queue) && name in {queue, queue + ".dlq"}
    ensures DeclareQueue(reg, name, Durable).Some? && Consistent(DeclareQueue(reg, name, Durable).value, queue)
  {
  }

  lemma {:induction false} DelayedKeepsConsistent(reg: Registry, queue: string, delay: int64)
    requires Consistent(reg, queue)
    ensures var declared := DeclareQueue(reg, RetryQueueName(queue, delay), Delayed(Millis(delay), queue));
            declared.Some? && Consistent(declared.value, queue)
  {
    var name := RetryQueueName(queue, delay);
    var after := DeclareQueue(reg, name, Delayed(Millis(delay), queue)).value;
    NamesAreDistinct(queue, delay);
    forall d: int64 | RetryQueueName(queue, d) in after
      ensures after[RetryQueueName(queue, d)] == Delayed(Millis(d), queue)
    {
      if RetryQueueName(queue, d) == name { NameDeterminesTtl(queue, d, delay); }
    }
  }

  lemma {:induction false} DelayedDeclaration(t: Topology, i: nat)
    requires i < |t.retryDelays|
    ensures |t.Declarations()| == |t.retryDelays| + 2
    ensures t.Declarations()[i + 2]
            == (RetryQueueName(t.queue, t.retryDelays[i]), Delayed(Millis(t.retryDelays[i]), t.queue))
  {
  }

  lemma {:induction false} DurableDeclarations(t: Topology)
    requires t == NewTopology(t.queue, t.retryDelays)
    ensures |t.Declarations()| == |t.retryDelays| + 2
    ensures t.Declarations()[0] == (t.queue, Durable) && t.Declarations()[1] == (t.queue + ".dlq", Durable)
  {
  }

  lemma {:induction false} DeclareKeepsConsistent(reg: Registry, t: Topology, i: nat)
    requires Consistent(reg, t.queue) && t == NewTopology(t.queue, t.retryDelays) && i < |t.Declarations()|
    ensures DeclareQueue(reg, t.Declarations()[i].0, t.Declarations()[i].1).Some?
    ensures Consistent(DeclareQueue(reg, t.Declarations()[i].0, t.Declarations()[i].1).value, t.queue)
  {
    if i < 2 {
      DurableDeclarations(t);
      DurablePairKeeps(reg, t.queue, t.Declarations()[i]);
    } else {
      DelayedDeclaration(t, i - 2);
      DelayedPairKeeps(reg, t.queue, t.Declarations()[i], t.retryDelays[i - 2]);
    }
  }

  lemma {:induction false} DurablePairKeeps(reg: Registry, queue: string, d: (string, QueueArgs))
    requires Consistent(reg, queue) && (d == (queue, Durable) || d == (queue + ".dlq", Durable))
    ensures DeclareQueue(reg, d.0, d.1).Some? && Consistent(DeclareQueue(reg, d.0, d.1).value, queue)
  {
    DurableKeepsConsistent(reg, queue, d.0);
  }

  lemma {:induction false} DelayedPairKeeps(reg: Registry, queue: string, d: (string, QueueArgs), delay: int64)
    requires Consistent(reg, queue) && d == (RetryQueueName(queue, delay), Delayed(Millis(delay), queue))
    ensures DeclareQueue(reg, d.0, d.1).Some? && Consistent(DeclareQueue(reg, d.0, d.1).value, queue)
  {
    DelayedKeepsConsistent(reg, queue, delay);
  }

  lemma {:induction false} DeclareFromNeverConflicts(reg: Registry, t: Topology, i: nat)
    requires Consistent(reg, t.queue) && t == NewTopology(t.queue, t.retryDelays) && i <= |t.Declarations()|
    ensures DeclareFrom(reg, t.Declarations(), i).1 && Consistent(DeclareFrom(reg, t.Declarations(), i).0, t.queue)
    decreases |t.Declarations()| - i
  {
    if i < |t.Declarations()| {
      DeclareKeepsConsistent(reg, t, i);
      DeclareFromNeverConflicts(DeclareQueue(reg, t.Declarations()[i].0, t.Declarations()[i].1).value, t, i + 1);
    }
  }

  /** `after` keeps every queue of `before`, holds every queue of the list, and holds nothing else. */
  ghost predicate Extends(before: Registry, list: seq<(string, QueueArgs)>, after: Registry) {
    && (forall name :: name in before ==> name in after && after[name] == before[name])
    && (forall i :: 0 <= i < |list| ==> list[i].0 in after && after[list[i].0] == list[i].1)
    && (forall name :: name in after ==> name in before || exists i :: 0 <= i < |list| && list[i].0 == name)
  }

  lemma {:induction false} DeclareFromKeeps(reg: Registry, list: seq<(string, QueueArgs)>, i: nat)
    requires i <= |list| && DeclareFrom(reg, list, i).1
    ensures var after := DeclareFrom(reg, list, i).0;
            && (forall name :: name in reg ==> name in after && after[name] == reg[name])
            && (forall j :: i <= j < |list| ==> list[j].0 in after && after[list[j].0] == list[j].1)
    decreases |list| - i
  {
    if i < |list| { DeclareFromKeeps(DeclareQueue(reg, list[i].0, list[i].1).value, list, i + 1); }
  }

  lemma {:induction false} DeclareFromAddsOnly(reg: Registry, list: seq<(string, QueueArgs)>, i: nat, name: string)
    requires i <= |list| && name in DeclareFrom(reg, list, i).0 && name !in reg
    ensures exists j :: i <= j < |list| && list[j].0 == name
    decreases |list| - i
  {
    if i < |list| && list[i].0 != name {
      DeclareFromAddsOnly(DeclareQueue(reg, list[i].0, list[i].1).value, list, i + 1, name);
    }
  }

  lemma {:induction false} DeclareAllExtends(reg: Registry, list: seq<(string, QueueArgs)>)
    requires DeclareAll(reg, list).1
    ensures Extends(reg, list, DeclareAll(reg, list).0)
  {
    DeclareFromKeeps(reg, list, 0);
    forall name | name in DeclareAll(reg, list).0 && name !in reg
      ensures exists i :: 0 <= i < |list| && list[i].0 == name
    {
      DeclareFromAddsOnly(reg, list, 0, name);
    }
  }

  /** Declaring any topology of the queue after any earlier ones is never refused, keeps every queue and adds its
      own. */
  lemma {:induction false} DeclareNeverConflicts(reg: Registry, t: Topology)
    requires Consistent(reg, t.queue) && t == NewTopology(t.queue, t.retryDelays)
    ensures var (after, ok) := DeclareAll(reg, t.Declarations());
            ok && Consistent(after, t.queue) && Extends(reg, t.Declarations(), after)
  {
    DeclareFromNeverConflicts(reg, t, 0);
    DeclareAllExtends(reg, t.Declarations());
  }

  /** The registry after one start per topology, in order. */
  function Restarts(reg: Registry, starts: seq<Topology>): (Registry, bool)
    decreases |starts|
  {
    if |starts| == 0 then (reg, true)
    else
      var (before, ok) := Restarts(reg, starts[..|starts| - 1]);
      var (after, more) := DeclareAll(before, starts[|starts| - 1].Declarations());
      (after, ok && more)
  }

  /** Changing the policy any number of times never makes a start fail, as the comment on retryQueueName promises. */
  lemma {:induction false} PolicyChangesNeverConflict(queue: string, starts: seq<Topology>)
    requires forall t :: t in starts ==> t == NewTopology(queue, t.retryDelays)
    ensures Restarts(map[], starts).1 && Consistent(Restarts(map[], starts).0, queue)
    decreases |starts|
  {
    if |starts| > 0 {
      PolicyChangesNeverConflict(queue, starts[..|starts| - 1]);
      DeclareNeverConflicts(Restarts(map[], starts[..|starts| - 1]).0, starts[|starts| - 1]);
    }
  }

  /** The broker side of QueueDeclare, and topology.declare against it. */
  class Registrar {
    var queues: Registry

    constructor ()
      ensures queues == map[]
    {
      queues := map[];
    }

    /** Declares one queue, entry i of the list being declared. */
    method QueueDeclare(name: string, args: QueueArgs, ghost list: seq<(string, QueueArgs)>, ghost i: nat)
      returns (ok: bool)
      requires i < |list| && list[i] == (name, args)
      modifies this
      ensures queues == if ok then old(queues)[name := args] else old(queues)
      ensures ok == DeclareQueue(old(queues), name, args).Some?
      ensures DeclareFrom(old(queues), list, i) == if ok then DeclareFrom(queues, list, i + 1) else (queues, false)
    {
      ok := name !in queues || queues[name] == args;
      if ok { queues := queues[name := args]; }
      assert name in old(queues) && ok ==> queues == old(queues);
    }

    method Declare(t: Topology) returns (ok: bool)
      requires t == NewTopology(t.queue, t.retryDelays)
      modifies this
      ensures (queues, ok) == DeclareAll(old(queues), t.Declarations())
    {
      ghost var list := t.Declarations();
      ok := QueueDeclare(t.queue, Durable, list, 0);
      if !ok { return; }
      ok := QueueDeclare(t.deadLetter, Durable, list, 1);
      if !ok { return; }
      forall i | 0 <= i < |t.retryDelays|
        ensures list[i + 2] == (RetryQueueName(t.queue, t.retryDelays[i]), Delayed(Millis(t.retryDelays[i]), t.queue))
      {
        DelayedDeclaration(t, i);
      }
      ok := DeclareRetryQueues(t, list);
    }

    method DeclareRetryQueues(t: Topology, ghost list: seq<(string, QueueArgs)>) returns (ok: bool)
      requires |list| == |t.retryDelays| + 2
      requires forall i :: 0 <= i < |t.retryDelays| ==>
                 list[i + 2] == (RetryQueueName(t.queue, t.retryDelays[i]), Delayed(Millis(t.retryDelays[i]), t.queue))
      modifies this
      ensures (queues, ok) == DeclareFrom(old(queues), list, 2)
    {
      for i := 0 to |t.retryDelays|
        invariant |list| == |t.retryDelays| + 2
        invariant DeclareFrom(queues, list, i + 2) == DeclareFrom(old(queues), list, 2)
      {
        var delay := t.retryDelays[i];
        ok := QueueDeclare(RetryQueueName(t.queue, delay), Delayed(Millis(delay), t.queue), list, i + 2);
        if !ok { return; }
      }
      ok := true;
    }
  }
}
