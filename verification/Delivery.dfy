/** At-least-once delivery of one partition into the evidence writer: poll, decode,
    validate, deduplicate, handle, record, commit, with a fault possible at every step. */
module Delivery {
  import opened Sorting
  import opened Wrappers
  import opened Uuids
  import opened EvidenceStore
  import Lru

  /** One log entry: a body that decodes into an envelope, or one that does not. */
  datatype Message = Malformed | Envelope(event: Event)

  /** A consumer process: the next offset to fetch and its deduplication window. */
  datatype Session = Session(position: nat, window: seq<Text>)

  datatype World = World(log: seq<Message>, committed: nat, store: Store, session: Option<Session>)

  const INITIAL := World([], 0, EMPTY_STORE, None)

  /** What an exception does: Python's run() lets it escape and the session is over; the
      kafkajs runner keeps the session and feeds the same message again. */
  datatype Runtime = EndsSession | ReFeeds

  datatype CommitFault = CommitOk | CommitLost | CommitAckLost

  /** What the environment does during one poll. */
  datatype Poll = Quiet | BrokerError | Deliver(writer: WriterFault, ids: Fresh, commit: CommitFault)

  datatype Outcome = Idle | Done(event: Event) | Raised

  datatype Polled = Polled(world: World, outcome: Outcome)

  function Raise(rt: Runtime, w: World, position: nat, window: seq<Text>): Polled {
    Polled(w.(session := if rt.EndsSession? then None else Some(Session(position, window))), Raised)
  }

  function Commit(rt: Runtime, w: World, position: nat, window: seq<Text>, e: Event, fault: CommitFault): Polled {
    match fault
    case CommitOk => Polled(w.(committed := position + 1, session := Some(Session(position + 1, window))), Done(e))
    case CommitLost => Raise(rt, w, position, window)
    case CommitAckLost => Raise(rt, w.(committed := position + 1), position, window)
  }

  /** What follows the handler: an exception, or record and commit. */
  function Handled(rt: Runtime, capacity: nat, w: World, position: nat, window: seq<Text>, e: Event,
                   a: Attempted, commit: CommitFault): Polled
  {
    if a.result.None? then Raise(rt, w.(store := a.store), position, window)
    else Commit(rt, w.(store := a.store), position, Lru.AfterRecord(capacity, window, e.key), e, commit)
  }

  /** The consume contract for one poll. */
  function PollOnce(rt: Runtime, capacity: nat, schema: Event -> bool, w: World, p: Poll): (r: Polled)
    requires w.session.Some?
    ensures rt.ReFeeds? ==> r.world.session.Some?
  {
    var Session(position, window) := w.session.value;
    match p
    case Quiet => Polled(w, Idle)
    case BrokerError => Raise(rt, w, position, window)
    case Deliver(writer, ids, commit) =>
      if position >= |w.log| then Polled(w, Idle)
      else if w.log[position].Malformed? || !schema(w.log[position].event) then Raise(rt, w, position, window)
      else
        var e := w.log[position].event;
        if e.key in window then Commit(rt, w, position, Lru.AfterSeen(window, e.key), e, commit)
        else Handled(rt, capacity, w, position, window, e, Attempt(w.store, e, ids, writer), commit)
  }

  datatype Step = Produce(message: Message) | PollStep(poll: Poll) | Crash | Start

  function Apply(rt: Runtime, capacity: nat, schema: Event -> bool, w: World, step: Step): World {
    match step
    case Produce(m) => w.(log := w.log + [m])
    case PollStep(p) => if w.session.Some? then PollOnce(rt, capacity, schema, w, p).world else w
    case Crash => w.(session := None)
    case Start => if w.session.Some? then w else w.(session := Some(Session(w.committed, [])))
  }

  function Run(rt: Runtime, capacity: nat, schema: Event -> bool, steps: seq<Step>): World {
    if |steps| == 0 then INITIAL
    else Apply(rt, capacity, schema, Run(rt, capacity, schema, steps[..|steps| - 1]), steps[|steps| - 1])
  }

  lemma RunSnoc(rt: Runtime, capacity: nat, schema: Event -> bool, steps: seq<Step>, last: Step)
    ensures Run(rt, capacity, schema, steps + [last]) == Apply(rt, capacity, schema, Run(rt, capacity, schema, steps), last)
  {
    assert (steps + [last])[..|steps|] == steps;
  }

  // ---- What one poll does --------------------------------------------------------------------

  /** The session is at a decodable, schema-valid message. */
  predicate AtEvent(schema: Event -> bool, w: World) {
    w.session.Some? && w.session.value.position < |w.log|
    && w.log[w.session.value.position].Envelope? && schema(w.log[w.session.value.position].event)
  }

  lemma PollAtEvent(rt: Runtime, capacity: nat, schema: Event -> bool, w: World, p: Poll)
    requires p.Deliver? && AtEvent(schema, w)
    ensures var Session(position, window) := w.session.value;
            var e := w.log[position].event;
            PollOnce(rt, capacity, schema, w, p)
            == if e.key in window then Commit(rt, w, position, Lru.AfterSeen(window, e.key), e, p.commit)
               else Handled(rt, capacity, w, position, window, e, Attempt(w.store, e, p.ids, p.writer), p.commit)
  {}

  /** The message's key is in the window. */
  predicate Hit(schema: Event -> bool, w: World) {
    AtEvent(schema, w) && w.log[w.session.value.position].event.key in w.session.value.window
  }

  /** The handler runs at this poll, and what it makes of the store. */
  predicate Handles(schema: Event -> bool, w: World, p: Poll) {
    p.Deliver? && AtEvent(schema, w) && !Hit(schema, w)
  }

  function HandlerAttempt(schema: Event -> bool, w: World, p: Poll): Attempted
    requires Handles(schema, w, p)
  {
    Attempt(w.store, w.log[w.session.value.position].event, p.ids, p.writer)
  }

  /** The message counts as handled: known already, or its handler succeeds. */
  predicate Succeeds(schema: Event -> bool, w: World, p: Poll) {
    p.Deliver? && AtEvent(schema, w) && (Hit(schema, w) || HandlerAttempt(schema, w, p).result.Some?)
  }

  /** The poll gets as far as an offset commit that takes effect. */
  predicate Commits(schema: Event -> bool, w: World, p: Poll) {
    Succeeds(schema, w, p) && !p.commit.CommitLost?
  }

  /** Nothing is fetched. */
  predicate FetchesNothing(w: World, p: Poll)
    requires w.session.Some?
  {
    p.Quiet? || (p.Deliver? && w.session.value.position >= |w.log|)
  }

  /** What a poll comes to, in full but for the window: it is idle when nothing is fetched; it
      returns the fetched event exactly when that is handled and its commit acknowledged; the
      commit is of the next offset; the store changes by the handler alone; and the session is
      where the runtime leaves it. */
  lemma PollDoes(rt: Runtime, capacity: nat, schema: Event -> bool, w: World, p: Poll)
    requires w.session.Some?
    ensures var r, position := PollOnce(rt, capacity, schema, w, p), w.session.value.position;
            && r.world.log == w.log
            && (r.outcome.Idle? <==> FetchesNothing(w, p))
            && (r.outcome.Done? <==> Succeeds(schema, w, p) && p.commit.CommitOk?)
            && (r.outcome.Done? ==> w.log[position] == Envelope(r.outcome.event))
            && r.world.committed == (if Commits(schema, w, p) then position + 1 else w.committed)
            && r.world.store == (if Handles(schema, w, p) then HandlerAttempt(schema, w, p).store else w.store)
            && (r.world.session.None? <==> r.outcome.Raised? && rt.EndsSession?)
            && (r.world.session.Some? ==> r.world.session.value.position == if r.outcome.Done? then position + 1 else position)
  {
    if p.Deliver? && AtEvent(schema, w) {
      PollAtEvent(rt, capacity, schema, w, p);
    }
  }

  // ---- The window of a session -----------------------------------------------------------------

  /** What a poll does to the deduplication store: it asks for the key of a valid message, and
      records it once its handler has succeeded. */
  function PollOps(schema: Event -> bool, w: World, p: Poll): seq<Lru.Op> {
    if !p.Deliver? || !AtEvent(schema, w) then []
    else
      var k := w.log[w.session.value.position].event.key;
      [Lru.Seen(k)] + if !Hit(schema, w) && Succeeds(schema, w, p) then [Lru.Record(k)] else []
  }

  /** What the current session has done to its deduplication store so far. */
  function SessionOps(rt: Runtime, capacity: nat, schema: Event -> bool, steps: seq<Step>): seq<Lru.Op> {
    if |steps| == 0 then []
    else
      var before, last := steps[..|steps| - 1], steps[|steps| - 1];
      var w := Run(rt, capacity, schema, before);
      if w.session.None? || last.Crash? then []
      else SessionOps(rt, capacity, schema, before) + if last.PollStep? then PollOps(schema, w, last.poll) else []
  }

  lemma LruSnoc(capacity: nat, ops: seq<Lru.Op>, op: Lru.Op)
    ensures Lru.Run(capacity, ops + [op]) == Lru.Apply(capacity, Lru.Run(capacity, ops), op)
  {
    assert (ops + [op])[..|ops|] == ops;
  }

  lemma WindowAfter(capacity: nat, window: seq<Text>, ops: seq<Lru.Op>, k: Text)
    requires window == Lru.Run(capacity, ops)
    ensures Lru.Run(capacity, ops + [Lru.Seen(k)]) == Lru.AfterSeen(window, k)
    ensures k !in window ==> Lru.Run(capacity, ops + [Lru.Seen(k), Lru.Record(k)]) == Lru.AfterRecord(capacity, window, k)
  {
    LruSnoc(capacity, ops, Lru.Seen(k));
    LruSnoc(capacity, ops + [Lru.Seen(k)], Lru.Record(k));
    assert ops + [Lru.Seen(k), Lru.Record(k)] == ops + [Lru.Seen(k)] + [Lru.Record(k)];
  }

  predicate WindowIs(w: World, window: seq<Text>) {
    w.session.Some? ==> w.session.value.window == window
  }

  lemma HandledWindow(rt: Runtime, capacity: nat, w: World, position: nat, window: seq<Text>, e: Event, a: Attempted, commit: CommitFault)
    ensures WindowIs(Commit(rt, w, position, window, e, commit).world, window)
    ensures WindowIs(Handled(rt, capacity, w, position, window, e, a, commit).world,
                     if a.result.Some? then Lru.AfterRecord(capacity, window, e.key) else window)
  {}

  lemma PollWindowAtEvent(rt: Runtime, capacity: nat, schema: Event -> bool, w: World, p: Poll)
    requires p.Deliver? && AtEvent(schema, w)
    ensures var window, k := w.session.value.window, w.log[w.session.value.position].event.key;
            WindowIs(PollOnce(rt, capacity, schema, w, p).world,
                     if Hit(schema, w) then Lru.AfterSeen(window, k)
                     else if Succeeds(schema, w, p) then Lru.AfterRecord(capacity, window, k)
                     else window)
  {
    var Session(position, window) := w.session.value;
    var e := w.log[position].event;
    PollAtEvent(rt, capacity, schema, w, p);
    HandledWindow(rt, capacity, w, position, Lru.AfterSeen(window, e.key), e, Attempted(w.store, None), p.commit);
    HandledWindow(rt, capacity, w, position, window, e, Attempt(w.store, e, p.ids, p.writer), p.commit);
  }

  lemma PollOpsAtEvent(schema: Event -> bool, w: World, p: Poll)
    requires p.Deliver? && AtEvent(schema, w)
    ensures var k := w.log[w.session.value.position].event.key;
            PollOps(schema, w, p) == if !Hit(schema, w) && Succeeds(schema, w, p) then [Lru.Seen(k), Lru.Record(k)] else [Lru.Seen(k)]
  {}

  lemma PollElsewhere(rt: Runtime, capacity: nat, schema: Event -> bool, w: World, p: Poll)
    requires w.session.Some? && !(p.Deliver? && AtEvent(schema, w))
    ensures WindowIs(PollOnce(rt, capacity, schema, w, p).world, w.session.value.window)
  {}

  lemma PollWindow(rt: Runtime, capacity: nat, schema: Event -> bool, w: World, p: Poll, ops: seq<Lru.Op>)
    requires w.session.Some? && w.session.value.window == Lru.Run(capacity, ops)
    ensures WindowIs(PollOnce(rt, capacity, schema, w, p).world, Lru.Run(capacity, ops + PollOps(schema, w, p)))
  {
    if p.Deliver? && AtEvent(schema, w) {
      WindowAfter(capacity, w.session.value.window, ops, w.log[w.session.value.position].event.key);
      PollWindowAtEvent(rt, capacity, schema, w, p);
      PollOpsAtEvent(schema, w, p);
    } else {
      PollElsewhere(rt, capacity, schema, w, p);
      assert ops + [] == ops;
    }
  }

  /** In every run the window of the session is that of a fresh deduplication store after the
      session's own calls. */
  lemma {:induction false} WindowIsLru(rt: Runtime, capacity: nat, schema: Event -> bool, steps: seq<Step>)
    ensures var w := Run(rt, capacity, schema, steps);
            w.session.Some? ==> w.session.value.window == Lru.Run(capacity, SessionOps(rt, capacity, schema, steps))
  {
    if |steps| > 0 {
      var before, last := steps[..|steps| - 1], steps[|steps| - 1];
      var w := Run(rt, capacity, schema, before);
      WindowIsLru(rt, capacity, schema, before);
      if w.session.Some? {
        var ops := SessionOps(rt, capacity, schema, before);
        assert ops + [] == ops;
        if last.PollStep? { PollWindow(rt, capacity, schema, w, last.poll, ops); }
      }
    }
  }

  /** A poll that returns an event leaves its key at the young end of the window. */
  lemma DonePollRemembers(rt: Runtime, capacity: nat, schema: Event -> bool, w: World, p: Poll)
    requires w.session.Some? && capacity >= 1 && PollOnce(rt, capacity, schema, w, p).outcome.Done?
    ensures var r := PollOnce(rt, capacity, schema, w, p);
            r.world.session.Some? && var window := r.world.session.value.window;
            |window| > 0 && window[|window| - 1] == r.outcome.event.key
  {
    PollAtEvent(rt, capacity, schema, w, p);
  }

  /** A message whose key is in the window is not handled again: the store stays, and what the
      writer would do and the ids it would get do not matter. */
  lemma HitIsFree(rt: Runtime, capacity: nat, schema: Event -> bool, w: World, p: Poll, writer: WriterFault, ids: Fresh)
    requires Hit(schema, w) && p.Deliver?
    ensures PollOnce(rt, capacity, schema, w, p).world.store == w.store
    ensures PollOnce(rt, capacity, schema, w, p) == PollOnce(rt, capacity, schema, w, Deliver(writer, ids, p.commit))
    ensures PollOnce(rt, capacity, schema, w, p).outcome.Done? <==> p.commit.CommitOk?
  {
    PollAtEvent(rt, capacity, schema, w, p);
    PollAtEvent(rt, capacity, schema, w, Deliver(writer, ids, p.commit));
  }

  /** So in every run a redelivery is skipped exactly when the session has touched its key and
      fewer than `capacity` other keys since. */
  lemma RedeliverySkippedIff(rt: Runtime, capacity: nat, schema: Event -> bool, steps: seq<Step>)
    ensures var w := Run(rt, capacity, schema, steps);
            var touches := Lru.Touches(capacity, SessionOps(rt, capacity, schema, steps));
            AtEvent(schema, w) ==>
              var k := w.log[w.session.value.position].event.key;
              Hit(schema, w) <==> k in touches && |Lru.OthersSince(touches, k)| < capacity
  {
    var w := Run(rt, capacity, schema, steps);
    if AtEvent(schema, w) {
      WindowIsLru(rt, capacity, schema, steps);
      Lru.WindowExactness(capacity, SessionOps(rt, capacity, schema, steps), w.log[w.session.value.position].event.key);
    }
  }

  /** What the poll adds to the handler's results. */
  function Wrote(schema: Event -> bool, w: World, p: Poll): seq<WriteResult> {
    if Handles(schema, w, p) && HandlerAttempt(schema, w, p).result.Some? then [HandlerAttempt(schema, w, p).result.value] else []
  }

  // ---- The simple specification: first occurrences ----------------------------------

  /** The first event with each key, in log order: what the store should contain. */
  ghost function Firsts(log: seq<Message>): seq<Event> {
    if |log| == 0 then []
    else
      var d := Firsts(log[..|log| - 1]);
      var m := log[|log| - 1];
      if m.Malformed? || HasKey(d, m.event.key) then d else d + [m.event]
  }

  lemma {:induction false} FirstsHasKey(log: seq<Message>, i: nat)
    requires i < |log| && log[i].Envelope?
    ensures HasKey(Firsts(log), log[i].event.key)
  {
    var n := |log| - 1;
    var d := Firsts(log[..n]);
    if i < n {
      FirstsHasKey(log[..n], i);
      var j :| 0 <= j < |d| && d[j].key == log[i].event.key;
      assert Firsts(log)[j].key == log[i].event.key;
    } else if !HasKey(d, log[i].event.key) {
      assert Firsts(log)[|d|].key == log[i].event.key;
    }
  }

  /** The first occurrences of a prefix of the log are a prefix of those of the log. */
  lemma {:induction false} FirstsPrefix(log: seq<Message>, n: nat)
    requires n <= |log|
    ensures |Firsts(log[..n])| <= |Firsts(log)| && Firsts(log)[..|Firsts(log[..n])|] == Firsts(log[..n])
  {
    if n == |log| {
      assert log[..n] == log;
    } else {
      FirstsPrefix(log[..|log| - 1], n);
      assert log[..|log| - 1][..n] == log[..n];
    }
  }

  /** The log's first occurrences up to n and one more. */
  lemma FirstsNext(log: seq<Message>, n: nat)
    requires n < |log| && log[n].Envelope?
    ensures Firsts(log[..n + 1])
            == if HasKey(Firsts(log[..n]), log[n].event.key) then Firsts(log[..n]) else Firsts(log[..n]) + [log[n].event]
  {
    assert log[..n + 1][..n] == log[..n];
  }

  /** The message at i brings a new event that the database cannot take. */
  ghost predicate Unstorable(log: seq<Message>, i: nat)
    requires i < |log|
  {
    log[i].Envelope? && !HasKey(Firsts(log[..i]), log[i].event.key) && !Storable(Firsts(log[..i]), log[i].event)
  }

  ghost predicate NoneUnstorable(log: seq<Message>) {
    forall i :: 0 <= i < |log| ==> !Unstorable(log, i)
  }

  lemma UnstorableInPrefix(log: seq<Message>, n: nat, i: nat)
    requires i < n <= |log|
    ensures Unstorable(log, i) <==> Unstorable(log[..n], i)
  {
    assert log[..n][..i] == log[..i];
  }

  lemma NoneUnstorableLast(log: seq<Message>)
    requires |log| > 0
    ensures NoneUnstorable(log) <==> NoneUnstorable(log[..|log| - 1]) && !Unstorable(log, |log| - 1)
  {
    var n := |log| - 1;
    forall i | 0 <= i < n ensures Unstorable(log, i) <==> Unstorable(log[..n], i) { UnstorableInPrefix(log, n, i); }
  }

  /** The first occurrences of a log are storable in order exactly when none of its messages is
      unstorable. */
  lemma {:induction false} StorableIffNoneUnstorable(log: seq<Message>)
    ensures AllStorable(Firsts(log)) <==> NoneUnstorable(log)
  {
    if |log| > 0 {
      StorableIffNoneUnstorable(log[..|log| - 1]);
      LastUnstorable(log);
      NoneUnstorableLast(log);
    }
  }

  lemma LastUnstorable(log: seq<Message>)
    requires |log| > 0
    ensures AllStorable(Firsts(log)) <==> AllStorable(Firsts(log[..|log| - 1])) && !Unstorable(log, |log| - 1)
  {
    var n := |log| - 1;
    assert log[..n + 1] == log;
    if log[n].Envelope? {
      FirstsNext(log, n);
      AllStorableAppend(Firsts(log[..n]), log[n].event);
    }
  }

  lemma {:induction false} FirstsComeFromLog(log: seq<Message>, j: nat)
    requires j < |Firsts(log)|
    ensures exists i :: 0 <= i < |log| && log[i] == Envelope(Firsts(log)[j])
  {
    var n := |log| - 1;
    if j < |Firsts(log[..n])| {
      FirstsComeFromLog(log[..n], j);
      var i :| 0 <= i < |log[..n]| && log[..n][i] == Envelope(Firsts(log[..n])[j]);
      assert log[i] == Envelope(Firsts(log)[j]);
    } else {
      assert log[n] == Envelope(Firsts(log)[j]);
    }
  }

  // ---- The invariant of every run -----------------------------------------------------

  ghost predicate ValidUpTo(schema: Event -> bool, log: seq<Message>, n: nat) {
    n <= |log| && forall i :: 0 <= i < n ==> log[i].Envelope? && schema(log[i].event)
  }

  /** The store holds the first occurrences of the log up to n, where n is the committed
      offset or, after an unacknowledged success, one beyond it. */
  ghost predicate HeldUpTo(schema: Event -> bool, w: World, n: nat) {
    && w.committed <= n <= w.committed + 1
    && ValidUpTo(schema, w.log, n)
    && Holds(w.store, Firsts(w.log[..n]))
    && (w.session.Some? ==>
          forall k :: k in w.session.value.window ==> HasKey(Firsts(w.log[..n]), k))
  }

  ghost predicate PositionFits(rt: Runtime, w: World) {
    w.session.Some? ==>
      var p := w.session.value.position;
      p <= w.committed <= p + (if rt.ReFeeds? then 1 else 0)
  }

  ghost predicate Inv(rt: Runtime, schema: Event -> bool, w: World) {
    PositionFits(rt, w) && exists n: nat :: HeldUpTo(schema, w, n)
  }

  /** A handler attempt at the message at `position` leaves the store as it was, or holding
      one position more; and a success means that message's key is held. */
  ghost predicate Extends(w: World, n: nat, position: nat, a: Attempted)
    requires n <= |w.log|
  {
    && (a.store != w.store ==> position == n < |w.log| && Holds(a.store, Firsts(w.log[..n + 1])))
    && (a.result.Some? && position == n < |w.log| ==> Holds(a.store, Firsts(w.log[..n + 1])))
  }

  /** What an attempt can come to, over a store that holds these events. */
  lemma AttemptOutcomes(s: Store, events: seq<Event>, e: Event, f: Fresh, fault: WriterFault)
    requires Holds(s, events)
    ensures var a := Attempt(s, e, f, fault);
            && (HasKey(events, e.key) ==> a.store == s && (fault.NoFault? ==> a.result.Some?))
            && (!HasKey(events, e.key) && (a.store != s || a.result.Some?) ==> Holds(a.store, events + [e]))
            && (!HasKey(events, e.key) && fault.NoFault? && UnusedIds(s, f) && Storable(events, e) ==> a.result.Some?)
  {
    WriteKeepsHolds(s, events, e, f);
  }

  lemma HandleExtends(schema: Event -> bool, w: World, n: nat, position: nat, f: Fresh, fault: WriterFault)
    requires HeldUpTo(schema, w, n)
    requires position <= w.committed && position < |w.log|
    requires w.log[position].Envelope? && schema(w.log[position].event)
    ensures var e := w.log[position].event;
            var a := Attempt(w.store, e, f, fault);
            && Extends(w, n, position, a)
            && (HasKey(Firsts(w.log[..n]), e.key) ==>
                  a.store == w.store && (fault.NoFault? ==> a.result.Some?))
            && (fault.NoFault? && !HasProvenance(w.store, f.provenanceId) && !HasEvidence(w.store, f.evidenceId)
                && (position == n ==> Storable(Firsts(w.log[..n]), e)) ==>
                  a.result.Some?)
  {
    AttemptOutcomes(w.store, Firsts(w.log[..n]), w.log[position].event, f, fault);
    if position < n {
      assert w.log[..n][position] == w.log[position];
      FirstsHasKey(w.log[..n], position);
    } else {
      FirstsNext(w.log, n);
    }
  }

  lemma AfterSeenKeys(window: seq<Text>, k: Text)
    ensures forall x :: x in Lru.AfterSeen(window, k) <==> x in window
  {}

  lemma AfterRecordKeys(capacity: nat, window: seq<Text>, k: Text)
    ensures forall x :: x in Lru.AfterRecord(capacity, window, k) ==> x in window || x == k
  {}

  lemma FirstsGrow(log: seq<Message>, n: nat, k: Text)
    requires n < |log| && HasKey(Firsts(log[..n]), k)
    ensures HasKey(Firsts(log[..n + 1]), k)
  {
    assert log[..n + 1][..n] == log[..n];
    var d := Firsts(log[..n]);
    var i :| 0 <= i < |d| && d[i].key == k;
    assert Firsts(log[..n + 1])[i].key == k;
  }

  /** A handled (or unacknowledged) message leaves the store holding one more position at most. */
  lemma HeldAfter(schema: Event -> bool, w: World, n: nat, w': World, n': nat)
    requires HeldUpTo(schema, w, n) && w'.log == w.log
    requires n' == n || n' == n + 1
    requires w'.committed <= n' <= w'.committed + 1
    requires ValidUpTo(schema, w.log, n') && Holds(w'.store, Firsts(w.log[..n']))
    requires w'.session.Some? ==> w.session.Some? && forall k :: k in w'.session.value.window ==>
               k in w.session.value.window || HasKey(Firsts(w.log[..n']), k)
    ensures HeldUpTo(schema, w', n')
  {
    if w'.session.Some? {
      forall k | k in w'.session.value.window ensures HasKey(Firsts(w.log[..n']), k) {
        if k in w.session.value.window && n' == n + 1 { FirstsGrow(w.log, n, k); }
      }
    }
  }

  /** Commit, whatever its fault, moves the committed offset to position + 1 or not at all. */
  lemma CommitOffsets(rt: Runtime, w: World, position: nat, window: seq<Text>, e: Event, fault: CommitFault)
    requires position <= w.committed <= position + (if rt.ReFeeds? then 1 else 0)
    ensures var w' := Commit(rt, w, position, window, e, fault).world;
            && PositionFits(rt, w') && w'.log == w.log && w'.store == w.store
            && (w'.committed == w.committed || w'.committed == position + 1)
            && w.committed <= w'.committed
            && (w'.session.Some? ==> w'.session.value.window == window)
  {}

  lemma HandledOffsets(rt: Runtime, capacity: nat, w: World, position: nat, window: seq<Text>, e: Event, a: Attempted, commit: CommitFault)
    requires position <= w.committed <= position + (if rt.ReFeeds? then 1 else 0)
    ensures var w' := Handled(rt, capacity, w, position, window, e, a, commit).world;
            && PositionFits(rt, w') && w'.log == w.log && w'.store == a.store
            && (w'.committed == w.committed || w'.committed == position + 1)
            && w.committed <= w'.committed
            && (a.result.None? ==> w'.committed == w.committed)
            && (w'.session.Some? ==> forall k :: k in w'.session.value.window ==> k in window || (a.result.Some? && k == e.key))
  {
    AfterRecordKeys(capacity, window, e.key);
    CommitOffsets(rt, w.(store := a.store), position, Lru.AfterRecord(capacity, window, e.key), e, commit);
  }

  lemma HandledKeepsInv(rt: Runtime, capacity: nat, schema: Event -> bool, w: World, n: nat,
                        e: Event, a: Attempted, commit: CommitFault)
    requires HeldUpTo(schema, w, n) && PositionFits(rt, w) && w.session.Some?
    requires var p := w.session.value.position;
             p < |w.log| && w.log[p] == Envelope(e) && schema(e) && Extends(w, n, p, a)
    ensures var s := w.session.value;
            Inv(rt, schema, Handled(rt, capacity, w, s.position, s.window, e, a, commit).world)
  {
    if w.session.value.position == n && (a.result.Some? || a.store != w.store) {
      HandledNewKeepsInv(rt, capacity, schema, w, n, e, a, commit);
    } else {
      HandledOldKeepsInv(rt, capacity, schema, w, n, e, a, commit);
    }
  }

  lemma HandledNewKeepsInv(rt: Runtime, capacity: nat, schema: Event -> bool, w: World, n: nat,
                           e: Event, a: Attempted, commit: CommitFault)
    requires HeldUpTo(schema, w, n) && PositionFits(rt, w) && w.session.Some?
    requires n == w.session.value.position < |w.log| && w.log[n] == Envelope(e) && schema(e)
    requires Holds(a.store, Firsts(w.log[..n + 1]))
    ensures var s := w.session.value;
            Inv(rt, schema, Handled(rt, capacity, w, s.position, s.window, e, a, commit).world)
  {
    var window := w.session.value.window;
    HandledOffsets(rt, capacity, w, n, window, e, a, commit);
    FirstsHasKey(w.log[..n + 1], n);
    HeldAfter(schema, w, n, Handled(rt, capacity, w, n, window, e, a, commit).world, n + 1);
  }

  lemma HandledOldKeepsInv(rt: Runtime, capacity: nat, schema: Event -> bool, w: World, n: nat,
                           e: Event, a: Attempted, commit: CommitFault)
    requires HeldUpTo(schema, w, n) && PositionFits(rt, w) && w.session.Some?
    requires w.session.value.position < |w.log| && w.log[w.session.value.position] == Envelope(e) && a.store == w.store
    requires w.session.value.position < n || (w.session.value.position == n && a.result.None?)
    ensures var s := w.session.value;
            Inv(rt, schema, Handled(rt, capacity, w, s.position, s.window, e, a, commit).world)
  {
    var Session(position, window) := w.session.value;
    HandledOffsets(rt, capacity, w, position, window, e, a, commit);
    if position < n {
      assert w.log[..n][position] == w.log[position];
      FirstsHasKey(w.log[..n], position);
    }
    HeldAfter(schema, w, n, Handled(rt, capacity, w, position, window, e, a, commit).world, n);
  }

  /** A message whose key is in the window adds nothing to what is held. */
  lemma HitOneMore(schema: Event -> bool, w: World, n: nat, e: Event)
    requires HeldUpTo(schema, w, n) && w.session.Some? && e.key in w.session.value.window
    requires n < |w.log| && w.log[n] == Envelope(e) && schema(e)
    ensures ValidUpTo(schema, w.log, n + 1) && Firsts(w.log[..n + 1]) == Firsts(w.log[..n])
  {
    FirstsNext(w.log, n);
  }

  lemma HitKeepsInv(rt: Runtime, schema: Event -> bool, w: World, n: nat, e: Event, commit: CommitFault)
    requires HeldUpTo(schema, w, n) && PositionFits(rt, w) && w.session.Some?
    requires var s := w.session.value;
             s.position < |w.log| && w.log[s.position] == Envelope(e) && schema(e) && e.key in s.window
    ensures var s := w.session.value;
            Inv(rt, schema, Commit(rt, w, s.position, Lru.AfterSeen(s.window, e.key), e, commit).world)
  {
    var Session(position, window) := w.session.value;
    var w' := Commit(rt, w, position, Lru.AfterSeen(window, e.key), e, commit).world;
    AfterSeenKeys(window, e.key);
    CommitOffsets(rt, w, position, Lru.AfterSeen(window, e.key), e, commit);
    if position == n && w'.committed == n + 1 {
      HitOneMore(schema, w, n, e);
      HeldAfter(schema, w, n, w', n + 1);
    } else {
      HeldAfter(schema, w, n, w', n);
    }
  }

  lemma PollKeepsInv(rt: Runtime, capacity: nat, schema: Event -> bool, w: World, p: Poll)
    requires Inv(rt, schema, w) && w.session.Some?
    ensures Inv(rt, schema, PollOnce(rt, capacity, schema, w, p).world)
  {
    var n: nat :| HeldUpTo(schema, w, n);
    var Session(position, window) := w.session.value;
    if !p.Deliver? || position >= |w.log| || w.log[position].Malformed? || !schema(w.log[position].event) {
      HeldAfter(schema, w, n, PollOnce(rt, capacity, schema, w, p).world, n);
    } else {
      var e := w.log[position].event;
      if e.key in window {
        HitKeepsInv(rt, schema, w, n, e, p.commit);
      } else {
        HandleExtends(schema, w, n, position, p.ids, p.writer);
        HandledKeepsInv(rt, capacity, schema, w, n, e, Attempt(w.store, e, p.ids, p.writer), p.commit);
      }
    }
  }

  lemma ApplyKeepsInv(rt: Runtime, capacity: nat, schema: Event -> bool, w: World, step: Step)
    requires Inv(rt, schema, w)
    ensures Inv(rt, schema, Apply(rt, capacity, schema, w, step))
  {
    var n: nat :| HeldUpTo(schema, w, n);
    var w' := Apply(rt, capacity, schema, w, step);
    match step {
      case PollStep(p) => if w.session.Some? { PollKeepsInv(rt, capacity, schema, w, p); }
      case Produce(m) =>
        assert w'.log[..n] == w.log[..n];
        assert HeldUpTo(schema, w', n);
      case _ => assert HeldUpTo(schema, w', n);
    }
  }

  /** Every run, from an empty broker and an empty store, stays inside the invariant. */
  lemma {:induction false} RunKeepsInv(rt: Runtime, capacity: nat, schema: Event -> bool, steps: seq<Step>)
    ensures Inv(rt, schema, Run(rt, capacity, schema, steps))
  {
    if |steps| == 0 {
      assert HeldUpTo(schema, INITIAL, 0);
    } else {
      RunKeepsInv(rt, capacity, schema, steps[..|steps| - 1]);
      ApplyKeepsInv(rt, capacity, schema, Run(rt, capacity, schema, steps[..|steps| - 1]), steps[|steps| - 1]);
    }
  }

  // ---- Exactly-once effect and commit safety --------------------------------------------

  /** In every reachable state, for every key: the joined rows number at most one, exactly one
      if the key lies below the committed offset, and they carry the key's first occurrence. */
  lemma ExactlyOnceEffect(rt: Runtime, capacity: nat, schema: Event -> bool, steps: seq<Step>, key: Text)
    ensures var w := Run(rt, capacity, schema, steps);
            var rows := JoinOnMethod(w.store.evidence, w.store.provenance, Anchor(key));
            && |rows| <= 1
            && ((exists i :: 0 <= i < w.committed <= |w.log| && w.log[i].Envelope? && w.log[i].event.key == key) ==> |rows| == 1)
            && FindExisting(w.store, key) != Ambiguous
  {
    var w := Run(rt, capacity, schema, steps);
    RunKeepsInv(rt, capacity, schema, steps);
    var n: nat :| HeldUpTo(schema, w, n);
    JoinIsAligned(w.store, Firsts(w.log[..n]), 0, key);
    assert w.store.evidence[0..] == w.store.evidence;
    if i :| 0 <= i < w.committed <= |w.log| && w.log[i].Envelope? && w.log[i].event.key == key {
      assert w.log[..n][i] == w.log[i];
      FirstsHasKey(w.log[..n], i);
    }
  }

  /** The store is the image of the first occurrences in the log, up to the committed offset
      or one further, and referentially intact. */
  ghost predicate RefinesLog(w: World) {
    && w.committed <= |w.log|
    && (|| Holds(w.store, Firsts(w.log[..w.committed]))
        || (w.committed < |w.log| && Holds(w.store, Firsts(w.log[..w.committed + 1]))))
    && Referential(w.store)
  }

  lemma HeldRefinesLog(schema: Event -> bool, w: World, n: nat)
    requires HeldUpTo(schema, w, n)
    ensures RefinesLog(w)
  {
    HoldsIsReferential(w.store, Firsts(w.log[..n]));
    if n == w.committed {
      assert Holds(w.store, Firsts(w.log[..w.committed]));
    } else {
      assert Holds(w.store, Firsts(w.log[..w.committed + 1]));
    }
  }

  /** Every reachable store refines its log. */
  lemma StoreRefinesLog(rt: Runtime, capacity: nat, schema: Event -> bool, steps: seq<Step>)
    ensures RefinesLog(Run(rt, capacity, schema, steps))
  {
    var w := Run(rt, capacity, schema, steps);
    RunKeepsInv(rt, capacity, schema, steps);
    var n: nat :| HeldUpTo(schema, w, n);
    HeldRefinesLog(schema, w, n);
  }

  /** Nothing below the committed offset is unhandled, and the committed offset never passes
      a message that does not decode or validate, nor one that the database cannot take: such
      a message holds its partition for ever. */
  lemma CommitSafety(rt: Runtime, capacity: nat, schema: Event -> bool, steps: seq<Step>, i: nat)
    ensures var w := Run(rt, capacity, schema, steps);
            && (i < w.committed ==>
                  && i < |w.log| && w.log[i].Envelope? && schema(w.log[i].event)
                  && FindExisting(w.store, w.log[i].event.key).Present?)
            && (i < |w.log| && (w.log[i].Malformed? || !schema(w.log[i].event) || Unstorable(w.log, i)) ==> w.committed <= i)
  {
    var w := Run(rt, capacity, schema, steps);
    RunKeepsInv(rt, capacity, schema, steps);
    if i < w.committed {
      var n: nat :| HeldUpTo(schema, w, n);
      assert w.log[..n][i] == w.log[i];
      FirstsHasKey(w.log[..n], i);
      LookupIsExact(w.store, Firsts(w.log[..n]), w.log[i].event.key);
      StorableIffNoneUnstorable(w.log[..n]);
      assert w.log[..n][..i] == w.log[..i];
      assert !Unstorable(w.log[..n], i);
    }
  }

  /** A stuck partition: a schema-valid event whose values all cast, but whose domain id is in
      upper case and not yet known, is never committed and leaves the store empty. */
  lemma UpperCaseHoldsThePartition() returns (domainId: Text)
    ensures Castable(SampleEvent([1], domainId)) && Unstorable([Envelope(SampleEvent([1], domainId))], 0)
    ensures forall rt, capacity, schema, steps :: Run(rt, capacity, schema, steps).log == [Envelope(SampleEvent([1], domainId))] ==>
              Run(rt, capacity, schema, steps).committed == 0 && Run(rt, capacity, schema, steps).store == EMPTY_STORE
  {
    var own, other := TwoSpellings();
    domainId := other;
    var e := SampleEvent([1], domainId);
    var log := [Envelope(e)];
    NormalisedIffLowerCase(domainId);
    assert !Normalised(NormalisedUrl(domainId));
    assert log[..0] == [] && Firsts([]) == [];
    forall rt, capacity, schema, steps | Run(rt, capacity, schema, steps).log == log
      ensures Run(rt, capacity, schema, steps).committed == 0 && Run(rt, capacity, schema, steps).store == EMPTY_STORE
    {
      CommitSafety(rt, capacity, schema, steps, 0);
      StuckStoreIsEmpty(rt, capacity, schema, steps, log);
    }
  }

  lemma StuckStoreIsEmpty(rt: Runtime, capacity: nat, schema: Event -> bool, steps: seq<Step>, log: seq<Message>)
    requires Run(rt, capacity, schema, steps).log == log && |log| == 1 && Unstorable(log, 0)
    ensures Run(rt, capacity, schema, steps).store == EMPTY_STORE
  {
    var w := Run(rt, capacity, schema, steps);
    RunKeepsInv(rt, capacity, schema, steps);
    var n: nat :| HeldUpTo(schema, w, n);
    if n == 1 {
      assert log[..1] == log;
      StorableIffNoneUnstorable(log);
      assert false;
    }
    assert log[..0] == [] && Firsts([]) == [];
    NothingHeld(w.store);
  }

  /** No row is ever taken back or changed. */
  ghost predicate Grows(s: Store, t: Store) {
    s.domains <= t.domains && s.provenance <= t.provenance && s.evidence <= t.evidence
  }

  lemma AttemptGrows(s: Store, e: Event, f: Fresh, fault: WriterFault)
    ensures Grows(s, Attempt(s, e, f, fault).store)
  {
    assert Grows(s, Inserted(s, e, f));
  }

  lemma HandledGrows(rt: Runtime, capacity: nat, w: World, position: nat, window: seq<Text>, e: Event,
                     a: Attempted, commit: CommitFault)
    requires w.committed <= position + 1 && Grows(w.store, a.store)
    ensures var w' := Handled(rt, capacity, w, position, window, e, a, commit).world;
            w.committed <= w'.committed && w.log == w'.log && Grows(w.store, w'.store)
  {}

  lemma HitGrows(rt: Runtime, w: World, position: nat, window: seq<Text>, e: Event, commit: CommitFault)
    requires w.committed <= position + 1
    ensures var w' := Commit(rt, w, position, window, e, commit).world;
            w.committed <= w'.committed && w.log == w'.log && Grows(w.store, w'.store)
  {}

  lemma PollGrows(rt: Runtime, capacity: nat, schema: Event -> bool, w: World, p: Poll)
    requires w.session.Some? && w.committed <= w.session.value.position + 1
    ensures var w' := PollOnce(rt, capacity, schema, w, p).world;
            w.committed <= w'.committed && w.log == w'.log && Grows(w.store, w'.store)
  {
    var Session(position, window) := w.session.value;
    if p.Deliver? && position < |w.log| && w.log[position].Envelope? {
      var e := w.log[position].event;
      var a := Attempt(w.store, e, p.ids, p.writer);
      AttemptGrows(w.store, e, p.ids, p.writer);
      HandledGrows(rt, capacity, w, position, window, e, a, p.commit);
      HitGrows(rt, w, position, Lru.AfterSeen(window, e.key), e, p.commit);
    }
  }

  /** No step takes back a commit, a message or a row. */
  lemma StepsOnlyGrow(rt: Runtime, capacity: nat, schema: Event -> bool, w: World, step: Step)
    requires Inv(rt, schema, w)
    ensures var w' := Apply(rt, capacity, schema, w, step);
            w.committed <= w'.committed && w.log <= w'.log && Grows(w.store, w'.store)
  {
    if step.PollStep? && w.session.Some? {
      PollGrows(rt, capacity, schema, w, step.poll);
    }
  }

  // ---- The window is only an optimisation --------------------------------------------------

  ghost predicate SameButWindow(a: World, b: World) {
    && a.log == b.log && a.committed == b.committed && a.store == b.store
    && (a.session.Some? <==> b.session.Some?)
    && (a.session.Some? ==> a.session.value.position == b.session.value.position)
  }

  /** The poll with which a consumer in state b follows poll p of a consumer in state a. */
  function FollowPoll(schema: Event -> bool, a: World, b: World, p: Poll): Poll {
    if p.Deliver? && AtEvent(schema, a) && b.session.Some? then
      var e := a.log[a.session.value.position].event;
      var hitA, hitB := e.key in a.session.value.window, e.key in b.session.value.window;
      if hitA && !hitB then p.(writer := NoFault)
      else if !hitA && hitB && Attempt(a.store, e, p.ids, p.writer).result.None? then p.(commit := CommitLost)
      else p
    else p
  }

  function Follow(schema: Event -> bool, a: World, b: World, s: Step): Step {
    if s.PollStep? then PollStep(FollowPoll(schema, a, b, s.poll)) else s
  }

  /** The whole schedule with which a consumer of capacity d follows one of capacity c. */
  function Shadow(rt: Runtime, c: nat, d: nat, schema: Event -> bool, steps: seq<Step>): (r: seq<Step>)
    ensures |r| == |steps|
  {
    if |steps| == 0 then []
    else
      var before := steps[..|steps| - 1];
      var r := Shadow(rt, c, d, schema, before);
      r + [Follow(schema, Run(rt, c, schema, before), Run(rt, d, schema, r), steps[|steps| - 1])]
  }

  lemma HandledMatches(rt: Runtime, c: nat, d: nat, a: World, b: World, position: nat,
                       u: seq<Text>, v: seq<Text>, e: Event, t: Attempted, commit: CommitFault)
    requires SameButWindow(a, b)
    ensures SameButWindow(Handled(rt, c, a, position, u, e, t, commit).world,
                          Handled(rt, d, b, position, v, e, t, commit).world)
    ensures t.store == a.store ==>
              SameButWindow(Handled(rt, c, a, position, u, e, t, commit).world,
                            Commit(rt, b, position, v, e, if t.result.None? then CommitLost else commit).world)
    ensures t.store == a.store && t.result.Some? ==>
              SameButWindow(Commit(rt, a, position, u, e, commit).world,
                            Handled(rt, d, b, position, v, e, t, commit).world)
    ensures SameButWindow(Commit(rt, a, position, u, e, commit).world, Commit(rt, b, position, v, e, commit).world)
  {}

  /** A key in some consumer's window is in the store, so handling it again is a no-op. */
  lemma WindowKeyIsHandled(rt: Runtime, schema: Event -> bool, w: World, f: Fresh, fault: WriterFault)
    requires Inv(rt, schema, w) && AtEvent(schema, w)
    requires w.log[w.session.value.position].event.key in w.session.value.window
    ensures var a := Attempt(w.store, w.log[w.session.value.position].event, f, fault);
            a.store == w.store && (fault.NoFault? ==> a.result.Some?)
  {
    var n: nat :| HeldUpTo(schema, w, n);
    HandleExtends(schema, w, n, w.session.value.position, f, fault);
  }

  lemma FollowPollMatches(rt: Runtime, c: nat, d: nat, schema: Event -> bool, a: World, b: World, p: Poll)
    requires SameButWindow(a, b) && p.Deliver? && AtEvent(schema, a)
    requires var s, e := a.session.value, a.log[a.session.value.position].event;
             && (e.key in s.window ==> var t0 := Attempt(a.store, e, p.ids, NoFault);
                                       t0.store == a.store && t0.result.Some?)
             && (e.key in b.session.value.window ==> Attempt(a.store, e, p.ids, p.writer).store == a.store)
    ensures SameButWindow(PollOnce(rt, c, schema, a, p).world,
                          PollOnce(rt, d, schema, b, FollowPoll(schema, a, b, p)).world)
  {
    var Session(position, u) := a.session.value;
    var v := b.session.value.window;
    var e := a.log[position].event;
    PollAtEvent(rt, c, schema, a, p);
    PollAtEvent(rt, d, schema, b, FollowPoll(schema, a, b, p));
    if e.key in u {
      var t0 := Attempt(a.store, e, p.ids, NoFault);
      HandledMatches(rt, c, d, a, b, position, Lru.AfterSeen(u, e.key), if e.key in v then Lru.AfterSeen(v, e.key) else v, e, t0, p.commit);
    } else {
      var t := Attempt(a.store, e, p.ids, p.writer);
      HandledMatches(rt, c, d, a, b, position, u, if e.key in v then Lru.AfterSeen(v, e.key) else v, e, t, p.commit);
    }
  }

  lemma FollowMatches(rt: Runtime, c: nat, d: nat, schema: Event -> bool, a: World, b: World, s: Step)
    requires Inv(rt, schema, a) && Inv(rt, schema, b) && SameButWindow(a, b)
    ensures SameButWindow(Apply(rt, c, schema, a, s), Apply(rt, d, schema, b, Follow(schema, a, b, s)))
  {
    if s.PollStep? && s.poll.Deliver? && AtEvent(schema, a) {
      var e := a.log[a.session.value.position].event;
      if e.key in a.session.value.window { WindowKeyIsHandled(rt, schema, a, s.poll.ids, NoFault); }
      if e.key in b.session.value.window { WindowKeyIsHandled(rt, schema, b, s.poll.ids, s.poll.writer); }
      FollowPollMatches(rt, c, d, schema, a, b, s.poll);
    }
  }

  lemma {:induction false} ShadowMatches(rt: Runtime, c: nat, d: nat, schema: Event -> bool, steps: seq<Step>)
    ensures SameButWindow(Run(rt, c, schema, steps), Run(rt, d, schema, Shadow(rt, c, d, schema, steps)))
  {
    if |steps| > 0 {
      var before, last := steps[..|steps| - 1], steps[|steps| - 1];
      var shadow := Shadow(rt, c, d, schema, before);
      var a, b := Run(rt, c, schema, before), Run(rt, d, schema, shadow);
      ShadowMatches(rt, c, d, schema, before);
      RunKeepsInv(rt, c, schema, before);
      RunKeepsInv(rt, d, schema, shadow);
      FollowMatches(rt, c, d, schema, a, b, last);
      assert steps == before + [last];
      RunSnoc(rt, c, schema, before, last);
      RunSnoc(rt, d, schema, shadow, Follow(schema, a, b, last));
    }
  }

  /** Any two window capacities are equivalent: every run with capacity c is followed, step by
      step, by a run with capacity d that has the same log, committed offset, position and
      store. With d == 0 the follower has no window at all, and conversely. */
  lemma WindowIsOnlyAnOptimisation(
    rt: Runtime, c: nat, d: nat, schema: Event -> bool, steps: seq<Step>, i: nat)
    requires i <= |steps|
    ensures SameButWindow(Run(rt, c, schema, steps[..i]), Run(rt, d, schema, Shadow(rt, c, d, schema, steps)[..i]))
  {
    ShadowPrefix(rt, c, d, schema, steps, i);
    ShadowMatches(rt, c, d, schema, steps[..i]);
  }

  lemma {:induction false} ShadowPrefix(rt: Runtime, c: nat, d: nat, schema: Event -> bool, steps: seq<Step>, i: nat)
    requires i <= |steps|
    ensures Shadow(rt, c, d, schema, steps)[..i] == Shadow(rt, c, d, schema, steps[..i])
  {
    if i < |steps| {
      var before := steps[..|steps| - 1];
      ShadowPrefix(rt, c, d, schema, before, i);
      assert before[..i] == steps[..i];
      assert Shadow(rt, c, d, schema, steps)[..i] == Shadow(rt, c, d, schema, before)[..i];
    } else {
      assert steps[..i] == steps;
    }
  }

  // ---- Draining ----------------------------------------------------------------------------

  /** One turn of a supervised consumer: the process dies, or it is (re)started if need be and
      polls once. */
  datatype Turn = Dies | Polls(poll: Poll)

  function Supervise(rt: Runtime, capacity: nat, schema: Event -> bool, w: World, t: Turn): World {
    match t
    case Dies => Apply(rt, capacity, schema, w, Crash)
    case Polls(p) => Apply(rt, capacity, schema, Apply(rt, capacity, schema, w, Start), PollStep(p))
  }

  function Drive(rt: Runtime, capacity: nat, schema: Event -> bool, w: World, turns: seq<Turn>): World
    decreases |turns|
  {
    if |turns| == 0 then w
    else Drive(rt, capacity, schema, Supervise(rt, capacity, schema, w, turns[0]), turns[1..])
  }

  /** A poll that delivers without fault, with ids the store has not used. */
  predicate Clean(w: World, t: Turn) {
    t.Polls? && t.poll.Deliver? && t.poll.writer.NoFault? && t.poll.commit.CommitOk?
    && !HasProvenance(w.store, t.poll.ids.provenanceId) && !HasEvidence(w.store, t.poll.ids.evidenceId)
  }

  function CleanTurns(rt: Runtime, capacity: nat, schema: Event -> bool, w: World, turns: seq<Turn>): nat
    decreases |turns|
  {
    if |turns| == 0 then 0
    else (if Clean(w, turns[0]) then 1 else 0)
         + CleanTurns(rt, capacity, schema, Supervise(rt, capacity, schema, w, turns[0]), turns[1..])
  }

  /** The next offset a (possibly restarted) consumer will fetch. */
  function NextOffset(w: World): nat {
    if w.session.Some? then w.session.value.position else w.committed
  }

  lemma HandledProgress(rt: Runtime, capacity: nat, w: World, position: nat, window: seq<Text>, e: Event,
                        a: Attempted, commit: CommitFault)
    requires position <= w.committed
    ensures NextOffset(Handled(rt, capacity, w, position, window, e, a, commit).world) >= position
    ensures a.result.Some? && commit.CommitOk? ==>
              NextOffset(Handled(rt, capacity, w, position, window, e, a, commit).world) == position + 1
  {}

  lemma PollProgress(rt: Runtime, capacity: nat, schema: Event -> bool, w: World, p: Poll)
    requires w.session.Some? && ValidUpTo(schema, w.log, |w.log|) && w.session.value.position <= w.committed
    requires p.Deliver? && w.session.value.position < |w.log| ==>
               (Clean(w, Polls(p)) ==>
                  Attempt(w.store, w.log[w.session.value.position].event, p.ids, p.writer).result.Some?)
    ensures var w' := PollOnce(rt, capacity, schema, w, p).world;
            && w'.log == w.log && NextOffset(w) <= NextOffset(w')
            && (Clean(w, Polls(p)) && NextOffset(w) < |w.log| ==> NextOffset(w) < NextOffset(w'))
  {
    var Session(position, window) := w.session.value;
    if p.Deliver? && position < |w.log| {
      var e := w.log[position].event;
      HandledProgress(rt, capacity, w, position, window, e, Attempt(w.store, e, p.ids, p.writer), p.commit);
    }
  }

  ghost predicate Drainable(schema: Event -> bool, log: seq<Message>) {
    ValidUpTo(schema, log, |log|) && AllStorable(Firsts(log))
  }

  lemma SuperviseProgress(rt: Runtime, capacity: nat, schema: Event -> bool, w: World, t: Turn)
    requires Inv(rt, schema, w) && Drainable(schema, w.log)
    ensures var w' := Supervise(rt, capacity, schema, w, t);
            && Inv(rt, schema, w') && w'.log == w.log && NextOffset(w) <= NextOffset(w')
            && (Clean(w, t) && NextOffset(w) < |w.log| ==> NextOffset(w) < NextOffset(w'))
  {
    match t {
      case Dies =>
        ApplyKeepsInv(rt, capacity, schema, w, Crash);
        Drained(rt, schema, w);
      case Polls(p) =>
        var s := Apply(rt, capacity, schema, w, Start);
        ApplyKeepsInv(rt, capacity, schema, w, Start);
        ApplyKeepsInv(rt, capacity, schema, s, PollStep(p));
        CleanSucceeds(rt, schema, s, p);
        PollProgress(rt, capacity, schema, s, p);
    }
  }

  /** The handler succeeds at a clean poll of a drainable log. */
  lemma CleanSucceeds(rt: Runtime, schema: Event -> bool, w: World, p: Poll)
    requires Inv(rt, schema, w) && w.session.Some? && Drainable(schema, w.log)
    ensures w.session.value.position <= w.committed
    ensures Clean(w, Polls(p)) && w.session.value.position < |w.log| ==>
              Attempt(w.store, w.log[w.session.value.position].event, p.ids, p.writer).result.Some?
  {
    if Clean(w, Polls(p)) && w.session.value.position < |w.log| {
      var n: nat :| HeldUpTo(schema, w, n);
      var position := w.session.value.position;
      HandleExtends(schema, w, n, position, p.ids, p.writer);
      if position == n && !HasKey(Firsts(w.log[..n]), w.log[n].event.key) {
        StorableIffNoneUnstorable(w.log);
        assert !Unstorable(w.log, n);
      }
    }
  }

  /** With a drainable log, as many clean polls as there are messages left drain it, whatever
      faults, crashes and restarts happen in between and in whatever order. */
  lemma {:induction false} DrainingTerminates(
    rt: Runtime, capacity: nat, schema: Event -> bool, w: World, turns: seq<Turn>)
    requires Inv(rt, schema, w) && Drainable(schema, w.log)
    ensures var w' := Drive(rt, capacity, schema, w, turns);
            && Inv(rt, schema, w') && w'.log == w.log && NextOffset(w') >= NextOffset(w)
            && (CleanTurns(rt, capacity, schema, w, turns) >= |w.log| - NextOffset(w) ==>
                  w'.committed == |w.log| && Holds(w'.store, Firsts(w.log)))
            && (NextOffset(w') >= NextOffset(w) + CleanTurns(rt, capacity, schema, w, turns)
                || NextOffset(w') == |w.log|)
    decreases |turns|
  {
    if |turns| == 0 {
      Drained(rt, schema, w);
    } else {
      SuperviseProgress(rt, capacity, schema, w, turns[0]);
      var s := Supervise(rt, capacity, schema, w, turns[0]);
      DrainingTerminates(rt, capacity, schema, s, turns[1..]);
      Drained(rt, schema, Drive(rt, capacity, schema, w, turns));
    }
  }

  lemma Drained(rt: Runtime, schema: Event -> bool, w: World)
    requires Inv(rt, schema, w)
    ensures NextOffset(w) <= w.committed <= |w.log|
    ensures w.committed == |w.log| ==> Holds(w.store, Firsts(w.log)) && ValidUpTo(schema, w.log, |w.log|)
  {
    var n: nat :| HeldUpTo(schema, w, n);
    if w.committed == |w.log| {
      assert w.log[..n] == w.log;
    }
  }

  // ---- Exactly which logs drain --------------------------------------------------------------

  function MaxId(ids: seq<int>): int {
    if |ids| == 0 then 0 else if ids[0] > MaxId(ids[1..]) then ids[0] else MaxId(ids[1..])
  }

  lemma {:induction false} AboveMax(ids: seq<int>, i: nat)
    requires i < |ids|
    ensures ids[i] <= MaxId(ids)
  {
    if i > 0 { AboveMax(ids[1..], i - 1); }
  }

  /** Ids that the store has not used: a clean poll is always possible. */
  function CleanPoll(s: Store): Turn {
    Polls(Deliver(NoFault,
                  Fresh(MaxId(Map((p: ProvenanceRow) => p.provenanceId, s.provenance)) + 1,
                        MaxId(Map((e: EvidenceRow) => e.evidenceId, s.evidence)) + 1, 0),
                  CommitOk))
  }

  lemma CleanPollIsClean(w: World)
    ensures Clean(w, CleanPoll(w.store))
  {
    var ps := Map((p: ProvenanceRow) => p.provenanceId, w.store.provenance);
    var es := Map((e: EvidenceRow) => e.evidenceId, w.store.evidence);
    forall i | 0 <= i < |w.store.provenance| ensures w.store.provenance[i].provenanceId <= MaxId(ps) { AboveMax(ps, i); }
    forall i | 0 <= i < |w.store.evidence| ensures w.store.evidence[i].evidenceId <= MaxId(es) { AboveMax(es, i); }
  }

  lemma {:induction false} CleanTurnsExist(rt: Runtime, capacity: nat, schema: Event -> bool, w: World, k: nat) returns (turns: seq<Turn>)
    ensures CleanTurns(rt, capacity, schema, w, turns) >= k
    decreases k
  {
    if k == 0 {
      turns := [];
    } else {
      var t := CleanPoll(w.store);
      CleanPollIsClean(w);
      var rest := CleanTurnsExist(rt, capacity, schema, Supervise(rt, capacity, schema, w, t), k - 1);
      turns := [t] + rest;
    }
  }

  lemma {:induction false} DriveKeepsInv(rt: Runtime, capacity: nat, schema: Event -> bool, w: World, turns: seq<Turn>)
    requires Inv(rt, schema, w)
    ensures Inv(rt, schema, Drive(rt, capacity, schema, w, turns)) && Drive(rt, capacity, schema, w, turns).log == w.log
    decreases |turns|
  {
    if |turns| > 0 {
      var v := Supervise(rt, capacity, schema, w, turns[0]);
      ApplyKeepsInv(rt, capacity, schema, w, Crash);
      ApplyKeepsInv(rt, capacity, schema, w, Start);
      if turns[0].Polls? {
        var s := Apply(rt, capacity, schema, w, Start);
        ApplyKeepsInv(rt, capacity, schema, s, PollStep(turns[0].poll));
        PollKeepsLog(rt, capacity, schema, s, turns[0].poll);
      }
      DriveKeepsInv(rt, capacity, schema, v, turns[1..]);
    }
  }

  lemma PollKeepsLog(rt: Runtime, capacity: nat, schema: Event -> bool, w: World, p: Poll)
    requires w.session.Some?
    ensures PollOnce(rt, capacity, schema, w, p).world.log == w.log
  {}

  /** A log can be drained exactly when every message is valid and every first occurrence is
      one that the database takes where it comes. */
  lemma DrainsIffStorable(rt: Runtime, capacity: nat, schema: Event -> bool, w: World)
    requires Inv(rt, schema, w)
    ensures (exists turns :: Drive(rt, capacity, schema, w, turns).committed == |w.log|) <==> Drainable(schema, w.log)
  {
    if Drainable(schema, w.log) {
      var turns := CleanTurnsExist(rt, capacity, schema, w, |w.log|);
      DrainingTerminates(rt, capacity, schema, w, turns);
    }
    if turns :| Drive(rt, capacity, schema, w, turns).committed == |w.log| {
      DriveKeepsInv(rt, capacity, schema, w, turns);
      Drained(rt, schema, Drive(rt, capacity, schema, w, turns));
    }
  }
}
