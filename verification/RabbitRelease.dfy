/** Head-only expiry of the RabbitMQ retry queues delays nobody:
    internal/infrastructure/messaging/rabbitmq_topology.go. */
module RabbitRelease {
  import opened Numbers
  import opened RabbitBroker
  import opened RabbitSafety

  /** The copies that arrived in the queue of copy `no` before it. */
  function Ahead(s: State, no: nat): set<nat>
    requires no in s.copies
  {
    set k | k in s.copies && k < no && SameDelayedQueue(s, k, no)
  }

  lemma {:induction false} AheadExpired(s: State, no: nat, k: nat)
    requires OrderInv(s) && Expired(s, no) && k in Ahead(s, no)
    ensures Expired(s, k)
  {
  }

  lemma {:induction false} HeadHasNoneAhead(s: State, no: nat)
    requires Expired(s, no) && Ahead(s, no) == {}
    ensures IsHead(s, no)
  {
    var ahead := Ahead(s, no);
    forall k | k in s.copies && s.copies[k].place.Ready? && s.copies[k].place.queue == s.copies[no].place.queue
      ensures no <= k
    {
      assert k < no ==> k in ahead;
    }
  }

  /** What a few expiries change: some copies up to `no` of its queue are back in the main queue, at the same time. */
  ghost predicate Releases(cfg: Config, s: State, s': State, no: nat)
    requires no in s.copies
  {
    && s'.copies.Keys == s.copies.Keys && s'.args == s.args && s'.history == s.history && s'.workers == s.workers
    && forall k :: k in s.copies && s'.copies[k] != s.copies[k] ==>
         && k <= no && (k == no || k in Ahead(s, no))
         && s'.copies[k] == s.copies[k].(place := Ready(cfg.queue, s.history.now))
  }

  /** The state after the given copies expired, in order, if each could when its turn came. */
  ghost function ExpireAll(cfg: Config, s: State, nos: seq<nat>): Option<State>
    decreases |nos|
  {
    if |nos| == 0 then Some(s)
    else if Enabled(cfg, s, Expire(nos[0])) then ExpireAll(cfg, Do(cfg, s, Expire(nos[0])), nos[1..]) else None
  }

  lemma {:induction false} ExpireAllConcat(cfg: Config, s: State, first: seq<nat>, rest: seq<nat>)
    requires ExpireAll(cfg, s, first).Some?
    ensures ExpireAll(cfg, s, first + rest) == ExpireAll(cfg, ExpireAll(cfg, s, first).value, rest)
    decreases |first|
  {
    if |first| == 0 {
      assert first + rest == rest;
    } else {
      assert (first + rest)[1..] == first[1..] + rest;
      ExpireAllConcat(cfg, Do(cfg, s, Expire(first[0])), first[1..], rest);
    }
  }

  lemma {:induction false} ExpireHead(cfg: Config, s: State, no: nat)
    requires Inv(cfg, s) && Expired(s, no) && IsHead(s, no)
    ensures var s' := Do(cfg, s, Expire(no));
            Releases(cfg, s, s', no) && s'.copies[no].place == Ready(cfg.queue, s.history.now)
  {
  }

  lemma {:induction false} AheadShrinks(cfg: Config, s: State, s': State, k: nat, no: nat)
    requires QueuesInv(cfg, s) && cfg.queue in s.args && no in s.copies && k in Ahead(s, no)
    requires Releases(cfg, s, s', k) && s'.copies[k].place == Ready(cfg.queue, s.history.now)
    ensures s'.copies[no] == s.copies[no] && Ahead(s', no) < Ahead(s, no)
    ensures forall j :: j in s.copies && s'.copies[j] != s.copies[j] ==> j in Ahead(s, no)
  {
  }

  lemma {:induction false} ReleasesCompose(cfg: Config, s: State, s1: State, s2: State, k: nat, no: nat)
    requires no in s.copies && k in Ahead(s, no) && Releases(cfg, s, s1, k) && no in s1.copies
    requires Releases(cfg, s1, s2, no)
    requires forall j :: j in s.copies && s1.copies[j] != s.copies[j] ==> j in Ahead(s, no)
    requires Ahead(s1, no) <= Ahead(s, no)
    ensures Releases(cfg, s, s2, no)
  {
  }

  /** The copy lies in a delayed queue, and has for as long as the queue's x-message-ttl. */
  predicate WaitedItsTtl(s: State, no: nat) {
    && no in s.copies
    && match s.copies[no].place
       case Unacked(_) => false
       case Ready(queue, since) =>
         queue in s.args && s.args[queue].Delayed? && since + s.args[queue].ttlMillis * 1_000_000 <= s.history.now
  }

  /** In every state a run can reach, a copy whose TTL has run out can be back in the main queue at that very time:
      only expiries are needed, because every copy ahead of it has expired too. */
  lemma {:induction false} ReleasedOnTime(cfg: Config, s: State, no: nat) returns (nos: seq<nat>)
    requires cfg.policy.Sound() && Inv(cfg, s) && WaitedItsTtl(s, no)
    ensures var after := ExpireAll(cfg, s, nos);
            && after.Some? && Inv(cfg, after.value) && Releases(cfg, s, after.value, no)
            && after.value.copies[no].place == Ready(cfg.queue, s.history.now)
    decreases no, |Ahead(s, no)|
  {
    if Ahead(s, no) == {} {
      HeadHasNoneAhead(s, no);
      ExpireHead(cfg, s, no);
      InvKept(cfg, s, Expire(no));
      nos := [no];
      assert nos[1..] == [];
    } else {
      var k :| k in Ahead(s, no);
      AheadExpired(s, no, k);
      assert WaitedItsTtl(s, k);
      var first := ReleasedOnTime(cfg, s, k);
      var s1 := ExpireAll(cfg, s, first).value;
      AheadShrinks(cfg, s, s1, k, no);
      ProperSubsetIsSmaller(Ahead(s1, no), Ahead(s, no));
      var rest := ReleasedOnTime(cfg, s1, no);
      nos := first + rest;
      ExpireAllConcat(cfg, s, first, rest);
      ReleasesCompose(cfg, s, s1, ExpireAll(cfg, s1, rest).value, k, no);
    }
  }

  lemma {:induction false} ProperSubsetIsSmaller(a: set<nat>, b: set<nat>)
    requires a < b
    ensures |a| < |b|
    decreases a
  {
    if a == {} {
      assert |b| > 0;
    } else {
      var x :| x in a;
      ProperSubsetIsSmaller(a - {x}, b - {x});
    }
  }
}
