/** What a successful commit of the Kafka transport covers is not handed out again. */
module KafkaProgress {
  import opened Numbers
  import opened KafkaBroker
  import opened KafkaSafety

  ghost predicate HasRecord(slots: seq<Slot>, at: Partition) { exists i :: 0 <= i < |slots| && slots[i].at == at }

  /** One of the records is the one before offset n of its partition, and none lies at n or above. */
  ghost predicate IsHighest(slots: seq<Slot>, at: Partition, n: nat) {
    && n > 0 && Slot(at, n - 1) in slots
    && forall i :: 0 <= i < |slots| && slots[i].at == at ==> slots[i].offset < n
  }

  /** The offsets of a commit: for each partition with a given record, one past the highest of its records. */
  ghost predicate OnePastHighest(slots: seq<Slot>, offsets: map<Partition, nat>) {
    && (forall at :: at in offsets <==> HasRecord(slots, at))
    && (forall at :: at in offsets ==> IsHighest(slots, at, offsets[at]))
  }

  lemma {:induction false} OffsetsExact(slots: seq<Slot>)
    ensures OnePastHighest(slots, OffsetsOf(slots))
    decreases |slots|
  {
    if |slots| > 0 {
      OffsetsExact(slots[..|slots| - 1]);
      OffsetsAppend(slots[..|slots| - 1], slots[|slots| - 1]);
      HighestGrows(slots[..|slots| - 1], OffsetsOf(slots[..|slots| - 1]), slots[|slots| - 1]);
      assert slots == slots[..|slots| - 1] + [slots[|slots| - 1]];
    }
  }

  function Raised(offsets: map<Partition, nat>, last: Slot): map<Partition, nat> {
    offsets[last.at := Max(if last.at in offsets then offsets[last.at] else 0, last.offset + 1)]
  }

  lemma {:induction false} OffsetsAppend(before: seq<Slot>, last: Slot)
    ensures OffsetsOf(before + [last]) == Raised(OffsetsOf(before), last)
  {
    assert (before + [last])[..|before|] == before;
  }

  lemma {:induction false} HighestGrows(before: seq<Slot>, offsets: map<Partition, nat>, last: Slot)
    requires OnePastHighest(before, offsets)
    ensures OnePastHighest(before + [last], Raised(offsets, last))
  {
    var more, raised := before + [last], Raised(offsets, last);
    assert more[|before|] == last;
    forall at
      ensures at in raised <==> HasRecord(more, at)
      ensures at in raised ==> IsHighest(more, at, raised[at])
    {
      if HasRecord(before, at) {
        var i :| 0 <= i < |before| && before[i].at == at;
        assert more[i].at == at;
      }
    }
  }

  // ---------------------------------------------------------------- over a run

  /** The records member m would commit now. */
  function ResolvedOf(s: State, m: nat): seq<Slot>
    requires m in s.members && s.members[m].stage.Committing?
    requires s.members[m].stage.done <= |s.members[m].stage.batch|
  {
    s.members[m].stage.batch[..s.members[m].stage.done]
  }

  /** A successful commit leaves the committed offset of each partition one past the last record it covers there, and
      those of the other partitions as they were. */
  lemma {:induction false} CommitCovers(cfg: Config, s: State, m: nat)
    requires Enabled(cfg, s, Commit(m, true))
    ensures var s' := Do(cfg, s, Commit(m, true)); var slots := ResolvedOf(s, m);
            && (forall at :: HasRecord(slots, at) ==> IsHighest(slots, at, Committed(s', at)))
            && (forall at :: !HasRecord(slots, at) ==> Committed(s', at) == Committed(s, at))
            && (forall slot :: slot in slots ==> slot.offset < Committed(s', slot.at))
  {
    CommittedChange(cfg, s, Commit(m, true));
    OffsetsCover(s.committed, ResolvedOf(s, m));
  }

  lemma {:induction false} OffsetsCover(committed: map<Partition, nat>, slots: seq<Slot>)
    ensures var committed' := committed + OffsetsOf(slots);
            && (forall at :: HasRecord(slots, at) ==> at in committed' && IsHighest(slots, at, committed'[at]))
            && (forall at :: !HasRecord(slots, at) ==>
                 (at in committed' <==> at in committed) && (at in committed ==> committed'[at] == committed[at]))
            && (forall slot :: slot in slots ==> slot.at in committed' && slot.offset < committed'[slot.at])
  {
    OffsetsExact(slots);
    forall slot | slot in slots ensures slot.at in OffsetsOf(slots) && slot.offset < OffsetsOf(slots)[slot.at] {
      var i :| 0 <= i < |slots| && slots[i] == slot;
      assert HasRecord(slots, slot.at);
    }
  }

  /** A successful commit of records of the slot's partition that all come before it. */
  ghost predicate FallsShort(cfg: Config, s: State, e: Event, slot: Slot) {
    && e.Commit? && e.ok && Enabled(cfg, s, e) && HasRecord(ResolvedOf(s, e.m), slot.at)
    && forall i :: 0 <= i < |ResolvedOf(s, e.m)| && ResolvedOf(s, e.m)[i].at == slot.at ==>
         ResolvedOf(s, e.m)[i].offset < slot.offset
  }

  /** Nothing but such a commit, by a member with an older position, takes a committed offset back below a record. */
  lemma {:induction false} CommittedStaysPast(cfg: Config, s: State, e: Event, slot: Slot)
    requires Enabled(cfg, s, e) && slot.offset < Committed(s, slot.at) && !FallsShort(cfg, s, e, slot)
    ensures slot.offset < Committed(Do(cfg, s, e), slot.at)
  {
    if e.Commit? && e.ok { CommitCovers(cfg, s, e.m); }
  }

  predicate PastIt(member: Member, slot: Slot) {
    member.topic == slot.at.topic && slot.at.number in member.position ==>
      slot.offset < member.position[slot.at.number]
  }

  /** Whatever position member m has in the slot's partition, it is past the slot. */
  ghost predicate ReadsPast(s: State, m: nat, slot: Slot) {
    m in s.members ==> PastIt(s.members[m], slot)
  }

  /** A member's position moves back only when the partition is assigned to it again. */
  lemma {:induction false} ReadsPastKept(cfg: Config, s: State, e: Event, m: nat, slot: Slot)
    requires Enabled(cfg, s, e) && ReadsPast(s, m, slot)
    requires e == Assign(m, slot.at.number) ==> slot.offset < Committed(s, slot.at)
    ensures ReadsPast(Do(cfg, s, e), m, slot)
  {
    if m in Do(cfg, s, e).members && !IsStepOf(e, m) { OthersStand(cfg, s, e, m); }
  }

  /** No commit among the events falls short of the slot. */
  ghost predicate NoneFallsShort(cfg: Config, s: State, events: seq<Event>, slot: Slot)
    requires Continue(cfg, s, events).Some?
  {
    forall i :: 0 <= i < |events| && Continue(cfg, s, events[..i]).Some? ==>
      !FallsShort(cfg, Continue(cfg, s, events[..i]).value, events[i], slot)
  }

  lemma {:induction false} PastStays(cfg: Config, s: State, events: seq<Event>, m: nat, slot: Slot)
    requires Continue(cfg, s, events).Some? && NoneFallsShort(cfg, s, events, slot)
    requires slot.offset < Committed(s, slot.at) && ReadsPast(s, m, slot)
    ensures var t := Continue(cfg, s, events).value; slot.offset < Committed(t, slot.at) && ReadsPast(t, m, slot)
    decreases |events|
  {
    if |events| > 0 {
      var before, e := events[..|events| - 1], events[|events| - 1];
      var t := Continue(cfg, s, before).value;
      forall i | 0 <= i < |before| && Continue(cfg, s, before[..i]).Some?
        ensures !FallsShort(cfg, Continue(cfg, s, before[..i]).value, before[i], slot)
      {
        assert before[..i] == events[..i];
      }
      PastStays(cfg, s, before, m, slot);
      CommittedStaysPast(cfg, t, e, slot);
      ReadsPastKept(cfg, t, e, m, slot);
    }
  }

  /** A member has polled past the records of its batch. */
  ghost predicate BatchPolled(member: Member) {
    !member.stage.Polling? ==>
      forall i :: 0 <= i < |member.stage.batch| ==> PastIt(member, member.stage.batch[i])
  }

  lemma {:induction false} BatchPolledKept(cfg: Config, s: State, e: Event, m: nat)
    requires Enabled(cfg, s, e) && m in Do(cfg, s, e).members
    requires m in s.members ==> BatchPolled(s.members[m])
    ensures BatchPolled(Do(cfg, s, e).members[m])
  {
    if !IsStepOf(e, m) { OthersStand(cfg, s, e, m); }
  }

  lemma {:induction false} RunBatchPolled(cfg: Config, run: seq<Event>, m: nat)
    requires Run(cfg, run).Some? && m in Run(cfg, run).value.members
    ensures BatchPolled(Run(cfg, run).value.members[m])
    decreases |run|
  {
    if |run| > 0 {
      var s := Run(cfg, run[..|run| - 1]).value;
      if m in s.members { RunBatchPolled(cfg, run[..|run| - 1], m); }
      BatchPolledKept(cfg, s, run[|run| - 1], m);
    }
  }

  /** A record that member m covers by a successful commit in some run is not polled again, whatever happens in between
      (restarts, rebalances, failures), by m, by a later member or by one that was past it, unless a commit falls
      short of it. */
  lemma {:induction false} CommittedNotPolledAgain(cfg: Config, run: seq<Event>, m: nat, slot: Slot,
      events: seq<Event>, reader: nat, batch: seq<Slot>, after: map<nat, nat>)
    requires Run(cfg, run).Some? && Enabled(cfg, Run(cfg, run).value, Commit(m, true))
    requires slot in ResolvedOf(Run(cfg, run).value, m)
    requires reader == m || ReadsPast(Run(cfg, run).value, reader, slot)
    requires var s1 := Do(cfg, Run(cfg, run).value, Commit(m, true));
             && Continue(cfg, s1, events).Some? && NoneFallsShort(cfg, s1, events, slot)
             && Enabled(cfg, Continue(cfg, s1, events).value, Poll(reader, batch, after))
    ensures slot !in batch
  {
    var s := Run(cfg, run).value;
    RunBatchPolled(cfg, run, m);
    CommitCovers(cfg, s, m);
    ReadsPastStep(cfg, s, m, reader, slot);
    PastStays(cfg, Do(cfg, s, Commit(m, true)), events, reader, slot);
  }

  lemma {:induction false} ReadsPastStep(cfg: Config, s: State, m: nat, reader: nat, slot: Slot)
    requires Enabled(cfg, s, Commit(m, true)) && slot in ResolvedOf(s, m) && BatchPolled(s.members[m])
    requires reader == m || ReadsPast(s, reader, slot)
    ensures ReadsPast(Do(cfg, s, Commit(m, true)), reader, slot)
  {
    ReadsPastKept(cfg, s, Commit(m, true), reader, slot);
  }
}
