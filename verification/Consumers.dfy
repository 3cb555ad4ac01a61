/** The two event-bus consumers as objects over a partition, a deduplication window and the
    evidence writer, proved to take exactly the steps of module Delivery. */
module Consumers {
  import opened Sorting
  import opened Wrappers
  import opened Uuids
  import opened EvidenceStore
  import opened Delivery
  import Lru

  /** The broker's side of one partition: the log and the group's committed offset. */
  class Partition {
    var log: seq<Message>
    var committed: nat

    constructor (log: seq<Message>, committed: nat)
      ensures this.log == log && this.committed == committed
    {
      this.log, this.committed := log, committed;
    }

    /** Commit the offset after `offset`, synchronously; false is a raised exception. */
    method CommitAfter(offset: nat, fault: CommitFault) returns (ok: bool)
      modifies this`committed
      ensures ok <==> fault.CommitOk?
      ensures committed == if fault.CommitLost? then old(committed) else offset + 1
    {
      if !fault.CommitLost? {
        committed := offset + 1;
      }
      ok := fault.CommitOk?;
    }
  }

  // ---- Python ---------------------------------------------------------------------------

  /** What run() comes to: the world, the number of processed events, and whether an
      exception escaped. */
  datatype Loop = Loop(world: World, processed: nat, raised: bool)

  function RunLoop(capacity: nat, schema: Event -> bool, w: World, limit: Option<nat>, polls: seq<Poll>, processed: nat): Loop
    requires w.session.Some?
    decreases |polls|
  {
    if |polls| == 0 || (limit.Some? && processed >= limit.value) then Loop(w, processed, false)
    else
      var step := Delivery.PollOnce(EndsSession, capacity, schema, w, polls[0]);
      match step.outcome
      case Raised => Loop(step.world, processed, true)
      case Idle => RunLoop(capacity, schema, step.world, limit, polls[1..], processed)
      case Done(_) => RunLoop(capacity, schema, step.world, limit, polls[1..], processed + 1)
  }

  function AfterPolls(capacity: nat, schema: Event -> bool, w: World, polls: seq<Poll>): World
    decreases |polls|
  {
    if |polls| == 0 then w
    else AfterPolls(capacity, schema, Apply(EndsSession, capacity, schema, w, PollStep(polls[0])), polls[1..])
  }

  lemma {:induction false} EndedSessionStays(capacity: nat, schema: Event -> bool, w: World, polls: seq<Poll>)
    requires w.session.None?
    ensures AfterPolls(capacity, schema, w, polls) == w
    decreases |polls|
  {
    if |polls| > 0 { EndedSessionStays(capacity, schema, w, polls[1..]); }
  }

  lemma PollMoves(capacity: nat, schema: Event -> bool, w: World, p: Poll)
    requires w.session.Some? && w.session.value.position == w.committed
    ensures var r := Delivery.PollOnce(EndsSession, capacity, schema, w, p);
            && (r.outcome.Raised? <==> r.world.session.None?)
            && (r.world.session.Some? ==> r.world.session.value.position == r.world.committed)
            && (r.outcome.Idle? ==> r.world.committed == w.committed)
            && (r.outcome.Done? ==> r.world.committed == w.committed + 1)
  {}

  lemma RaisedCommitsAtMostOne(capacity: nat, schema: Event -> bool, w: World, p: Poll)
    requires w.session.Some? && w.session.value.position == w.committed
    ensures var r := Delivery.PollOnce(EndsSession, capacity, schema, w, p);
            w.committed <= r.world.committed <= w.committed + 1
  {}

  lemma FirstPoll(capacity: nat, schema: Event -> bool, w: World, limit: Option<nat>, polls: seq<Poll>, processed: nat)
    requires w.session.Some? && |polls| > 0 && (limit.Some? ==> processed < limit.value)
    ensures var step := Delivery.PollOnce(EndsSession, capacity, schema, w, polls[0]);
            && (step.outcome.Raised? || step.world.session.Some?)
            && RunLoop(capacity, schema, w, limit, polls, processed) == Onward(capacity, schema, step, limit, polls[1..], processed)
            && AfterPolls(capacity, schema, w, polls) == AfterPolls(capacity, schema, step.world, polls[1..])
  {}

  /** The loop after a poll. */
  function Onward(capacity: nat, schema: Event -> bool, step: Polled, limit: Option<nat>, rest: seq<Poll>, processed: nat): Loop
    requires step.outcome.Raised? || step.world.session.Some?
  {
    match step.outcome
    case Raised => Loop(step.world, processed, true)
    case Idle => RunLoop(capacity, schema, step.world, limit, rest, processed)
    case Done(_) => RunLoop(capacity, schema, step.world, limit, rest, processed + 1)
  }

  /** A loop that ended in the world and counted the offsets committed since w. */
  predicate Counts(w: World, r: Loop, world: World, processed: nat) {
    && r.world == world
    && (!r.raised ==> r.processed - processed == r.world.committed - w.committed)
    && (r.raised ==> r.world.committed - w.committed - 1 <= r.processed - processed <= r.world.committed - w.committed)
  }

  lemma CountsOnward(capacity: nat, schema: Event -> bool, w: World, step: Polled, rest: seq<Poll>, processed: nat)
    requires step.outcome.Raised? <==> step.world.session.None?
    requires step.outcome.Raised? ==> w.committed <= step.world.committed <= w.committed + 1
    requires step.outcome.Idle? ==> step.world.committed == w.committed
    requires step.outcome.Done? ==> step.world.committed == w.committed + 1
    requires step.world.session.Some? ==> step.world.session.value.position == step.world.committed
    ensures Counts(w, Onward(capacity, schema, step, None, rest, processed), AfterPolls(capacity, schema, step.world, rest), processed)
    decreases |rest|, 1
  {
    match step.outcome {
      case Raised => EndedSessionStays(capacity, schema, step.world, rest);
      case Idle => RunLoopCounts(capacity, schema, step.world, rest, processed);
      case Done(_) => RunLoopCounts(capacity, schema, step.world, rest, processed + 1);
    }
  }

  /** An unlimited run() takes one step per poll until an exception ends it, and counts
      exactly the offsets it commits, except one whose commit was not acknowledged. */
  lemma {:induction false} RunLoopCounts(capacity: nat, schema: Event -> bool, w: World, polls: seq<Poll>, processed: nat)
    requires w.session.Some? && w.session.value.position == w.committed
    ensures Counts(w, RunLoop(capacity, schema, w, None, polls, processed), AfterPolls(capacity, schema, w, polls), processed)
    decreases |polls|, 0
  {
    if |polls| > 0 {
      PollMoves(capacity, schema, w, polls[0]);
      RaisedCommitsAtMostOne(capacity, schema, w, polls[0]);
      FirstPoll(capacity, schema, w, None, polls, processed);
      CountsOnward(capacity, schema, w, Delivery.PollOnce(EndsSession, capacity, schema, w, polls[0]), polls[1..], processed);
    }
  }

  /** The limited loop is the unlimited one on k polls. */
  predicate LimitedBy(limited: Loop, unlimited: Loop, limit: nat, k: nat, n: nat) {
    limited == unlimited && k <= n && limited.processed <= limit && (!limited.raised && k < n ==> limited.processed == limit)
  }

  lemma LimitOnward(capacity: nat, schema: Event -> bool, step: Polled, limit: nat, rest: seq<Poll>, processed: nat) returns (k: nat)
    requires step.outcome.Raised? || step.world.session.Some?
    requires processed < limit
    ensures k <= |rest|
    ensures LimitedBy(Onward(capacity, schema, step, Some(limit), rest, processed), Onward(capacity, schema, step, None, rest[..k], processed),
                      limit, k, |rest|)
    decreases |rest|, 1
  {
    match step.outcome {
      case Raised => k := 0;
      case Idle => k := RunLoopLimit(capacity, schema, step.world, limit, rest, processed);
      case Done(_) => k := RunLoopLimit(capacity, schema, step.world, limit, rest, processed + 1);
    }
  }

  /** A limited run() is the unlimited one on the first k polls, where the limit is reached after
      k polls if any are left; it never processes more. */
  lemma {:induction false} RunLoopLimit(capacity: nat, schema: Event -> bool, w: World, limit: nat, polls: seq<Poll>, processed: nat) returns (k: nat)
    requires w.session.Some? && processed <= limit
    ensures k <= |polls|
    ensures LimitedBy(RunLoop(capacity, schema, w, Some(limit), polls, processed), RunLoop(capacity, schema, w, None, polls[..k], processed),
                      limit, k, |polls|)
    decreases |polls|, 0
  {
    if |polls| == 0 || processed == limit {
      k := 0;
    } else {
      var step := Delivery.PollOnce(EndsSession, capacity, schema, w, polls[0]);
      FirstPoll(capacity, schema, w, Some(limit), polls, processed);
      k := LimitOnward(capacity, schema, step, limit, polls[1..], processed);
      k := k + 1;
      FirstPoll(capacity, schema, w, None, polls[..k], processed);
      assert polls[..k][0] == polls[0] && polls[..k][1..] == polls[1..][..k - 1];
    }
  }

  lemma RunLoopStep(capacity: nat, schema: Event -> bool, w: World, limit: Option<nat>, polls: seq<Poll>, i: nat, processed: nat)
    requires w.session.Some? && i < |polls| && (limit.Some? ==> processed < limit.value)
    ensures var step := Delivery.PollOnce(EndsSession, capacity, schema, w, polls[i]);
            RunLoop(capacity, schema, w, limit, polls[i..], processed)
            == match step.outcome
               case Raised => Loop(step.world, processed, true)
               case Idle => RunLoop(capacity, schema, step.world, limit, polls[i + 1..], processed)
               case Done(_) => RunLoop(capacity, schema, step.world, limit, polls[i + 1..], processed + 1)
  {
    assert polls[i..][0] == polls[i] && polls[i..][1..] == polls[i + 1..];
  }

  /** One poll of a consumer object that lives on after an exception: whatever becomes of a
      fetched message, the client is past it, and the next poll asks for the one after it. */
  function SurvivingPoll(capacity: nat, schema: Event -> bool, w: World, p: Poll): (r: Polled)
    requires w.session.Some?
    ensures r.world.session.Some?
  {
    var r := Delivery.PollOnce(ReFeeds, capacity, schema, w, p);
    var position := w.session.value.position;
    if p.Deliver? && position < |w.log|
    then Polled(r.world.(session := Some(Session(position + 1, r.world.session.value.window))), r.outcome)
    else r
  }

  /** A result without the session that an exception ends. */
  function WithoutSession(r: Polled): Polled {
    if r.outcome.Raised? then r.(world := r.world.(session := None)) else r
  }

  lemma CommitEnds(w: World, position: nat, window: seq<Text>, e: Event, fault: CommitFault)
    ensures var r := Commit(ReFeeds, w, position, window, e, fault);
            && Commit(EndsSession, w, position, window, e, fault) == WithoutSession(r)
            && (!r.outcome.Raised? ==> r.world.session.Some? && r.world.session.value.position == position + 1)
  {}

  lemma HandledEnds(capacity: nat, w: World, position: nat, window: seq<Text>, e: Event, a: Attempted, commit: CommitFault)
    ensures var r := Handled(ReFeeds, capacity, w, position, window, e, a, commit);
            && Handled(EndsSession, capacity, w, position, window, e, a, commit) == WithoutSession(r)
            && (!r.outcome.Raised? ==> r.world.session.Some? && r.world.session.value.position == position + 1)
  {
    CommitEnds(w.(store := a.store), position, Lru.AfterRecord(capacity, window, e.key), e, commit);
  }

  /** A poll that ends the session on an exception is the surviving poll, without its session. */
  lemma SurvivingThenEnded(capacity: nat, schema: Event -> bool, w: World, p: Poll)
    requires w.session.Some?
    ensures Delivery.PollOnce(EndsSession, capacity, schema, w, p) == WithoutSession(SurvivingPoll(capacity, schema, w, p))
  {
    if p.Deliver? && AtEvent(schema, w) {
      var Session(position, window) := w.session.value;
      var e := w.log[position].event;
      PollAtEvent(EndsSession, capacity, schema, w, p);
      PollAtEvent(ReFeeds, capacity, schema, w, p);
      CommitEnds(w, position, Lru.AfterSeen(window, e.key), e, p.commit);
      HandledEnds(capacity, w, position, window, e, Attempt(w.store, e, p.ids, p.writer), p.commit);
    }
  }

  lemma SurvivingOffsets(capacity: nat, schema: Event -> bool, w: World, p: Poll)
    requires w.session.Some?
    ensures var r := SurvivingPoll(capacity, schema, w, p);
            var position := w.session.value.position;
            && r.world.committed == (if Commits(schema, w, p) then position + 1 else w.committed)
            && position <= r.world.session.value.position <= position + 1
            && (p.Deliver? && position < |w.log| ==> r.world.session.value.position == position + 1)
  {}

  /** One step of a partition whose consumer object survives exceptions. */
  function Continue(capacity: nat, schema: Event -> bool, w: World, step: Step): World {
    if step.PollStep? && w.session.Some? then SurvivingPoll(capacity, schema, w, step.poll).world
    else Apply(EndsSession, capacity, schema, w, step)
  }

  function Continued(capacity: nat, schema: Event -> bool, w: World, steps: seq<Step>): World
    decreases |steps|
  {
    if |steps| == 0 then w else Continued(capacity, schema, Continue(capacity, schema, w, steps[0]), steps[1..])
  }

  /** Some poll of the sequence commits. */
  predicate SomeCommits(capacity: nat, schema: Event -> bool, w: World, steps: seq<Step>)
    decreases |steps|
  {
    |steps| > 0
    && ((steps[0].PollStep? && Commits(schema, w, steps[0].poll))
        || SomeCommits(capacity, schema, Continue(capacity, schema, w, steps[0]), steps[1..]))
  }

  /** While the object lives it stays beyond o, and so does every commit it makes. */
  lemma {:induction false} NoCrashSkips(capacity: nat, schema: Event -> bool, w: World, o: nat, steps: seq<Step>)
    requires w.session.Some? && w.session.value.position > o && w.committed <= o + 1
    requires forall i :: 0 <= i < |steps| ==> !steps[i].Crash?
    ensures var u := Continued(capacity, schema, w, steps);
            && u.session.Some? && u.session.value.position > o
            && if SomeCommits(capacity, schema, w, steps) then u.committed > o + 1 else u.committed == w.committed
    decreases |steps|
  {
    if |steps| > 0 {
      var v := Continue(capacity, schema, w, steps[0]);
      if steps[0].PollStep? { SurvivingOffsets(capacity, schema, w, steps[0].poll); }
      if steps[0].PollStep? && Commits(schema, w, steps[0].poll) {
        StaysBeyond(capacity, schema, v, o, steps[1..]);
      } else {
        NoCrashSkips(capacity, schema, v, o, steps[1..]);
      }
    }
  }

  /** Once the committed offset has passed o, no crash or restart brings o back. */
  lemma {:induction false} StaysBeyond(capacity: nat, schema: Event -> bool, w: World, o: nat, steps: seq<Step>)
    requires w.committed > o + 1 && (w.session.Some? ==> w.session.value.position > o)
    ensures var u := Continued(capacity, schema, w, steps);
            && u.committed > o + 1 && (u.session.Some? ==> u.session.value.position > o)
            && (w.session.Some? && (forall i :: 0 <= i < |steps| ==> !steps[i].Crash?) ==> u.session.Some?)
    decreases |steps|
  {
    if |steps| > 0 {
      if steps[0].PollStep? && w.session.Some? { SurvivingOffsets(capacity, schema, w, steps[0].poll); }
      StaysBeyond(capacity, schema, Continue(capacity, schema, w, steps[0]), o, steps[1..]);
    }
  }

  lemma Restarted(capacity: nat, schema: Event -> bool, w: World)
    ensures Continued(capacity, schema, w, [Crash, Start]) == w.(session := Some(Session(w.committed, [])))
  {
    assert [Crash, Start][1..] == [Start] && [Start][1..] == [];
  }

  /** What a caller gets who catches the exception of the message at o and polls the same object
      again, any number of times: the position stays beyond o. If none of the later polls
      commits, a restart still fetches the failed message; as soon as one does, the committed
      offset is beyond it, and no later run, restarts included, fetches it again. */
  lemma PollingAgainSkips(capacity: nat, schema: Event -> bool, w: World, p: Poll, steps: seq<Step>, later: seq<Step>)
    requires w.session.Some? && w.session.value.position == w.committed < |w.log| && p.Deliver?
    requires SurvivingPoll(capacity, schema, w, p).outcome.Raised?
    requires forall i :: 0 <= i < |steps| ==> !steps[i].Crash?
    ensures var o, v := w.committed, SurvivingPoll(capacity, schema, w, p).world;
            var u := Continued(capacity, schema, v, steps);
            && v.committed == (if Commits(schema, w, p) then o + 1 else o)
            && u.session.Some? && u.session.value.position > o
            && if SomeCommits(capacity, schema, v, steps)
               then var z := Continued(capacity, schema, u, later);
                    u.committed > o + 1 && z.committed > o + 1 && (z.session.Some? ==> z.session.value.position > o)
               else u.committed == v.committed
                    && Continued(capacity, schema, u, [Crash, Start]).session == Some(Session(v.committed, []))
  {
    var v := SurvivingPoll(capacity, schema, w, p).world;
    SurvivingOffsets(capacity, schema, w, p);
    NoCrashSkips(capacity, schema, v, w.committed, steps);
    var u := Continued(capacity, schema, v, steps);
    if SomeCommits(capacity, schema, v, steps) { StaysBeyond(capacity, schema, u, w.committed, later); }
    Restarted(capacity, schema, u);
  }

  lemma FailingPoll(capacity: nat, schema: Event -> bool, w: World, p: Poll, position: nat)
    requires w.session == Some(Session(position, [])) && position < |w.log| && w.log[position].Envelope? && schema(w.log[position].event)
    requires p.Deliver? && Attempt(w.store, w.log[position].event, p.ids, p.writer) == Attempted(w.store, None)
    ensures SurvivingPoll(capacity, schema, w, p) == Polled(w.(session := Some(Session(position + 1, []))), Raised)
  {}

  lemma SucceedingPoll(capacity: nat, schema: Event -> bool, w: World, p: Poll, position: nat)
    requires w.session == Some(Session(position, [])) && position < |w.log| && w.log[position].Envelope? && schema(w.log[position].event)
    requires p.Deliver? && p.commit.CommitOk? && Attempt(w.store, w.log[position].event, p.ids, p.writer).result.Some?
    ensures var r := SurvivingPoll(capacity, schema, w, p);
            r.outcome.Done? && r.world.committed == position + 1
            && r.world.store == Attempt(w.store, w.log[position].event, p.ids, p.writer).store
  {}

  lemma FirstWrite(f: Event, ids: Fresh)
    requires Storable([], f)
    ensures var a := Attempt(EMPTY_STORE, f, ids, NoFault);
            a.result.Some? && Holds(a.store, [f])
  {
    assert Holds(EMPTY_STORE, []);
    WriteKeepsHolds(EMPTY_STORE, [], f, ids);
    assert [] + [f] == [f];
  }

  /** A lost event: the connection fails under the first of two messages, the caller polls
      again, and the partition ends fully committed with the first event nowhere in the store. */
  lemma PollingAgainLosesAnEvent(capacity: nat, schema: Event -> bool, own: Text) returns (w: World, p: Poll, q: Poll)
    requires (forall e :: schema(e)) && OwnText(own) && forall k :: 0 <= k < |own| ==> !IsUpperHex(own[k])
    ensures w.session == Some(Session(0, [])) && w.committed == 0 && w.store == EMPTY_STORE && |w.log| == 2 && w.log[0].Envelope?
    ensures var v := SurvivingPoll(capacity, schema, w, p);
            && v.outcome.Raised? && v.world.session.Some?
            && SurvivingPoll(capacity, schema, v.world, q).outcome.Done?
            && SurvivingPoll(capacity, schema, v.world, q).world.committed == |w.log|
            && FindExisting(SurvivingPoll(capacity, schema, v.world, q).world.store, w.log[0].event.key).Absent?
  {
    var e, f := SampleEvent([0], own), SampleEvent([1], own);
    assert e.key[0] != f.key[0];
    w := World([Envelope(e), Envelope(f)], 0, EMPTY_STORE, Some(Session(0, [])));
    p := Deliver(LostBefore(0), Fresh(0, 0, 0), CommitOk);
    q := Deliver(NoFault, Fresh(1, 1, 0), CommitOk);
    NormalisedIffLowerCase(own);
    LostBeforeStart(e, p.ids);
    FailingPoll(capacity, schema, w, p, 0);
    FirstWrite(f, q.ids);
    SucceedingPoll(capacity, schema, w.(session := Some(Session(1, []))), q, 1);
    LookupIsExact(Attempt(EMPTY_STORE, f, q.ids, NoFault).store, [f], e.key);
  }

  lemma LostBeforeStart(e: Event, ids: Fresh)
    ensures Attempt(EMPTY_STORE, e, ids, LostBefore(0)) == Attempted(EMPTY_STORE, None)
  {}

  class PythonConsumer {
    const partition: Partition
    const dedup: Lru.PythonDedupStore
    const handler: EvidenceWriter
    var position: nat
    var closed: bool

    /** The consumer together with the broker and the store, while its session lives. */
    ghost function View(): World
      reads this, partition, dedup, handler, handler.store
    {
      World(partition.log, partition.committed, handler.store.View(), Some(Session(position, dedup.keys)))
    }

    constructor (partition: Partition, dedup: Lru.PythonDedupStore, handler: EvidenceWriter)
      ensures this.partition == partition && this.dedup == dedup && this.handler == handler
      ensures position == partition.committed && !closed
    {
      this.partition, this.dedup, this.handler := partition, dedup, handler;
      position, closed := partition.committed, false;
    }

    method PollOnce(schema: Event -> bool, p: Poll) returns (r: Outcome)
      requires dedup.Valid()
      modifies this`position, partition`committed, dedup, handler, handler.store
      ensures dedup.Valid()
      ensures Polled(View(), r) == SurvivingPoll(dedup.capacity, schema, old(View()), p)
      ensures handler.results == old(handler.results) + Wrote(schema, old(View()), p)
    {
      if p.Quiet? { return Idle; }
      if p.BrokerError? { return Raised; }
      if position >= |partition.log| { return Idle; }
      position := position + 1;                  // fetching moves the client past the message
      r := Process(schema, position - 1, p);
    }

    /** What poll_once does with the fetched message. */
    method Process(schema: Event -> bool, offset: nat, p: Poll) returns (r: Outcome)
      requires dedup.Valid() && offset < |partition.log| && p.Deliver?
      modifies partition`committed, dedup, handler, handler.store
      ensures dedup.Valid()
      ensures var spec := Delivery.PollOnce(ReFeeds, dedup.capacity, schema, old(View()).(session := Some(Session(offset, old(dedup.keys)))), p);
              r == spec.outcome && spec.world.session.Some?
              && View() == spec.world.(session := Some(Session(position, spec.world.session.value.window)))
      ensures handler.results
              == old(handler.results) + Wrote(schema, old(View()).(session := Some(Session(offset, old(dedup.keys)))), p)
    {
      var message := partition.log[offset];
      if message.Malformed? { return Raised; }
      var e := message.event;
      if !schema(e) { return Raised; }
      var duplicate := dedup.Seen(e.key);
      if !duplicate {
        var result := handler.Handle(e, p.ids, p.writer);
        if result.None? { return Raised; }
        dedup.Record(e.key);
      }
      var ok := partition.CommitAfter(offset, p.commit);
      r := if ok then Done(e) else Raised;
    }

    /** run(): poll until closed, which the environment does after the given polls, or until
        `limit` events have been processed, or until an exception escapes. */
    method Run(schema: Event -> bool, limit: Option<nat>, polls: seq<Poll>) returns (processed: nat, raised: bool)
      requires dedup.Valid() && !closed
      modifies this, partition`committed, dedup, handler, handler.store
      ensures dedup.Valid()
      ensures var spec := RunLoop(dedup.capacity, schema, old(View()), limit, polls, 0);
              && spec.processed == processed && spec.raised == raised
              && spec.world == if raised then View().(session := None) else View()
    {
      processed, raised := 0, false;
      var i := 0;
      ghost var start := View();
      ghost var goal := RunLoop(dedup.capacity, schema, start, limit, polls, 0);
      assert polls[0..] == polls;
      while !closed
        invariant 0 <= i <= |polls| && dedup.Valid() && (closed ==> i == |polls|)
        invariant goal == RunLoop(dedup.capacity, schema, View(), limit, polls[i..], processed)
        decreases |polls| - i, !closed
      {
        if limit.Some? && processed >= limit.value { break; }
        if i == |polls| {
          Close();
        } else {
          ghost var before := View();
          var r := PollOnce(schema, polls[i]);
          RunLoopStep(dedup.capacity, schema, before, limit, polls, i, processed);
          ghost var step := Delivery.PollOnce(EndsSession, dedup.capacity, schema, before, polls[i]);
          SurvivingThenEnded(dedup.capacity, schema, before, polls[i]);
          assert step.outcome == r && (!r.Raised? ==> step.world == View());
          i := i + 1;
          if r.Raised? { return processed, true; }
          if r.Done? { processed := processed + 1; }
        }
      }
    }

    method Close()
      modifies this`closed
      ensures closed
    {
      closed := true;
    }
  }

  // ---- TypeScript -------------------------------------------------------------------------

  class TypeScriptConsumer {
    const partition: Partition
    const dedup: Lru.TypeScriptDedupStore
    const handler: EvidenceWriter

    /** The consumer with the runner about to feed it the message at `position`. */
    ghost function View(position: nat): World
      reads this, partition, dedup, handler, handler.store
    {
      World(partition.log, partition.committed, handler.store.View(), Some(Session(position, dedup.keys)))
    }

    constructor (partition: Partition, dedup: Lru.TypeScriptDedupStore, handler: EvidenceWriter)
      ensures this.partition == partition && this.dedup == dedup && this.handler == handler
    {
      this.partition, this.dedup, this.handler := partition, dedup, handler;
    }

    /** eachMessage for the message at `offset`; a rejection makes the runner feed it again,
        a resolution makes it feed the next one. */
    method ProcessMessage(schema: Event -> bool, offset: nat, p: Poll) returns (r: Outcome)
      requires dedup.Valid() && offset < |partition.log| && p.Deliver?
      modifies partition`committed, dedup, handler, handler.store
      ensures dedup.Valid()
      ensures Polled(View(if r.Done? then offset + 1 else offset), r)
              == Delivery.PollOnce(ReFeeds, old(dedup.Bound()), schema, old(View(offset)), p)
      ensures handler.results == old(handler.results) + Wrote(schema, old(View(offset)), p)
    {
      var message := partition.log[offset];
      if message.Malformed? { return Raised; }
      var e := message.event;
      if !schema(e) { return Raised; }
      var duplicate := dedup.Seen(e.key);
      if !duplicate {
        var result := handler.Handle(e, p.ids, p.writer);
        if result.None? { return Raised; }
        dedup.Record(e.key);
      }
      var ok := partition.CommitAfter(offset, p.commit);
      r := if ok then Done(e) else Raised;
    }
  }
}
